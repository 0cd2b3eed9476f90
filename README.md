# MangaThorg cache core, modelled in Dafny

MangaThorg is a web front end for the MangaDex API. In front of MangaDex sits an on-disk
response cache:

- **Category files.** One JSON file per category (`popular`, `last_uploaded`, `tags`,
  `categories`, `mangas`, `covers`, `manga_feeds`, `chapters_scan`, `manga_stats`). Each
  holds records keyed by (id, order, offset).
- **`status.json`.** The status index. It holds a flag for each snapshot category and an
  id list for each keyed one.
- **Cache-aside requests.** A request reads the cache first and otherwise asks MangaDex,
  then writes the answer back.
- **Daily sweep.** A sweep evicts records older than 24 hours.

Around the cache sit:

- the request and response shaping of the two `api-methods.go` files;
- the timer and duration helpers;
- the pagination, chapter-navigation and favourites logic of the page handlers;
- the standalone chapter scraper.

The project has these modules:

- `Results`: `Option` and `Result`, i.e. Go's nil and `(value, error)`.
- `Strconv`: Go's truncating `/` and `%`, `strconv.Itoa` and `strconv.Atoi`.
- `ApiModels`: the MangaDex response types.
- `CacheModels`: categories, the status document and records.
- `CacheList`: the `CacheData` methods and the file write.
- `StatusIndex`: `checkStatus`, `updateCacheStatus` and `deleteCacheStatus` as functions of
  the status document.
- `CacheManager`: the directory as a class `CacheDir`, with lookup, eviction, sweep and
  emptying.
- `CacheRecords`: the `SingleCacheData` constructors.
- `Requests`: `MangaRequest`, `CoverRequest` and the cache decisions they use.
- `ApiQuery`: `Params`, `ToQuery` and `CheckResponse`.
- `ApiFormat`: the `Format` methods and the cover helpers.
- `Timing`: `SetDailyTimer`, the sweep schedule and `DurationToString`.
- `Handlers`: controllers/handlers.go.
- `Scraper`: scraper/main.go.

Modelling choices:

- **Time and the network are parameters.**
  - Time is "now" in nanoseconds.
  - What MangaDex answered is a `Fetched` value: a decodable response, a body that does not
    decode (Go keeps the zero value), or no response at all. In that last case the code
    dereferences a nil response and panics, which the model records as `Crashed`.
- **A category file has three states**: `Missing`, `Blank` (zero bytes) and `Stored(records)`.
  Go treats them differently:
  - an appending write fails on a missing file;
  - an empty file decodes to a nil list;
  - a file holding `[]` decodes to a non-nil empty list, on which the snapshot lookup
    `cacheData[0]` panics.
- **Operations that rewrite files are methods of `CacheDir`.** Each one is specified as a
  function of the old directory state (`State() == Evict(old(State()), c, rec)` and so on).
  The properties are proved about those functions.

Behaviours of the code that a reader might not expect, all modelled as written:

- **Covers are never served from the cache.** The status document `StatusCache` has a
  covers list (internal/models/cache-models.go:34), but `checkStatus` and
  `updateCacheStatus` never read or fill it: their switches have no case for `covers`
  (internal/api/cache.go:75-111, 152-208). So `CoverRequest` always calls MangaDex, and
  its cache-hit branch is dead.
- **Keyed evictions are not persisted.** `deleteCacheData` computes the shortened list and
  discards it, without writing it back (internal/api/cache.go:292-308). A keyed record therefore
  outlives its eviction while its id is unmarked. Membership is tracked by id alone, so
  evicting one record of an id unmarks its other records too.
- **A flagged but empty snapshot panics.** The status flag and the file are written
  separately. When the flag is set while the file holds `[]`, the next popular or
  latest-uploaded request panics instead of missing.
- **The request file does not match the functions it calls.** internal/api/requests.go:76
  and :121 call `SingleCacheData` with one argument (the order value, and "" for covers),
  while every definition takes three: id, order and page (internal/models/api-methods.go:70
  and :82). Likewise requests.go:88 calls `retrieveSingleCacheData` with two arguments, while
  internal/api/cache.go:50 takes four. The model fills the missing arguments as follows:
  - id "" (the constructors ignore it);
  - the order value as written (the request's for mangas, "" for covers);
  - the request's offset for mangas (0 for both home-page requests), and 0 for covers.
  The two-argument lookup sits in the cover cache branch, which `checkStatus` never enters.

## Model

| member | source | states |
|---|---|---|
| CacheModels.ParseKey | internal/models/cache-models.go:6-26 | a key read back names the category whose key it is; a string that is no category's key reads as none |
| CacheModels.KeyRoundTrip | internal/models/cache-models.go:6-26 | every category's key reads back as that category |
| CacheModels.KeysDistinct | internal/models/cache-models.go:17-25 | the nine status keys are pairwise distinct, and the newer package's eight categories are all of them but covers |
| ApiModels.TagVocabulariesDistinct | internal/models/api-models.go:9-23 | the demographic and status tag lists repeat no entry |
| CacheList.FirstMatch | internal/models/cache-methods.go:17-24 | -1 exactly when no record has the key, else the index of the first record that does |
| CacheList.Exists | internal/models/cache-methods.go:17-24 | the scan answers true exactly when some record carries (id, order, offset) |
| CacheList.Updated | internal/models/cache-methods.go:33-41 | "singleCacheData not found" exactly when the key is absent; otherwise same length, first matching slot replaced, every other slot unchanged |
| CacheList.Update | internal/models/cache-methods.go:33-41 | the in-place overwrite of the array agrees with `Updated`, and leaves the array untouched on error |
| CacheList.Removed | internal/models/cache-methods.go:62-65 | one element shorter, elements before the index kept, later ones shifted down by one |
| CacheList.Delete | internal/models/cache-methods.go:52-66 | removes exactly the first record with the key; on a missing key returns the list unchanged with the not-found error |
| CacheList.Upsert | internal/models/cache-methods.go:189-211 | after the write the key is present with the datum at its first slot; the length grows by one iff the key was new (datum appended last); other records unchanged |
| CacheList.WriteResult | internal/models/cache-methods.go:189-221 | without append the file becomes `[datum]`; with append it fails exactly on a missing file, treats a blank file as empty and upserts into a stored list |
| CacheList.UpsertIntoEmpty | internal/models/cache-methods.go:203-210 | writing into an empty list gives the one-record list |
| CacheList.DeleteUndoesAppend | internal/models/cache-methods.go:52-66 | deleting the key of a record just appended gives back the old list |
| CacheList.UpsertKeepsKeysUnique | internal/models/cache-methods.go:203-210 | a list with unique keys keeps them unique through a write |
| CacheList.CountKeyZero | internal/models/cache-methods.go:17-24 | no record carries the key iff the scan finds none |
| CacheList.UpsertLeavesOneRecordOfKey | internal/models/cache-methods.go:203-210 | after writing a new key exactly one record carries it |
| CacheList.LaterWriteWins | internal/models/cache-methods.go:203-210 | two writes of the same key leave what the second write alone leaves |
| CacheList.DecodeApiManga | internal/models/cache-methods.go:74-85 | a null payload decodes to the zero list, a manga-list payload to its list, and exactly the other payloads fail |
| CacheList.DecodeApiCover | internal/models/cache-methods.go:74-85 | the same rule for cover lists |
| StatusIndex.WithFlag | internal/api/cache.go:152-208 | only the flag of the given snapshot category changes |
| StatusIndex.WithMembers | internal/api/cache.go:152-208 | only the id list of the given keyed category changes |
| StatusIndex.CheckStatus | internal/api/cache.go:75-111 | false without a status file and always for covers; otherwise a snapshot category answers with its flag and a keyed one with the id's membership in its list |
| StatusIndex.IndexOf | internal/api/cache.go:253-262 | the first position of the id, or -1 when absent |
| StatusIndex.Dropped | internal/api/cache.go:253-262 | unchanged when absent; otherwise one shorter and one occurrence of the id fewer |
| StatusIndex.DroppedKeepsOrder | internal/api/cache.go:253-262 | every other entry is kept in order: those before the first occurrence stay in place and those after it move down by one |
| StatusIndex.MarkedStatus | internal/api/cache.go:152-208 | covers leave the document as it was; a snapshot category's flag is set; a keyed list keeps its old entries as a prefix and then holds the id |
| StatusIndex.UnmarkedStatus | internal/api/cache.go:229-285 | covers leave the document as it was; a snapshot category's flag is cleared; a keyed list loses exactly one occurrence of the id (none when absent) and keeps all other entries |
| StatusIndex.MarkThenCheck | internal/api/cache.go:152-208 | after marking, every category but covers reports the item cached |
| StatusIndex.MarkFrame | internal/api/cache.go:152-208 | marking changes the answer for no other (category, id) |
| StatusIndex.MarkIdempotent | internal/api/cache.go:178-185 | marking twice writes what marking once wrote (no duplicate id) |
| StatusIndex.UnmarkUndoesMark | internal/api/cache.go:229-285 | unmarking a newly marked keyed id restores the document |
| StatusIndex.DroppedKeepsNoDuplicates | internal/api/cache.go:253-262 | removing an id from a repeat-free list keeps it repeat-free and the id gone |
| StatusIndex.MarkKeepsWellFormed | internal/api/cache.go:152-208 | marking keeps every id list free of repeats |
| StatusIndex.UnmarkKeepsWellFormed | internal/api/cache.go:229-285 | unmarking keeps every id list free of repeats |
| StatusIndex.UnmarkThenCheck | internal/api/cache.go:229-285 | after unmarking, a well-formed index no longer reports the item |
| StatusIndex.UnmarkFrame | internal/api/cache.go:229-285 | unmarking changes the answer for no other (category, id) |
| CacheManager.RetrieveCacheData | internal/api/cache.go:24-40 | nil exactly when the file is missing or empty, else its records |
| CacheManager.RetrieveSingleCacheData | internal/api/cache.go:50-67 | panics exactly for the empty id on `[]`; the empty id gives element 0; no list gives the zero record; otherwise the first record with the key, or the zero record |
| CacheManager.Evict | internal/api/cache.go:292-308 | a snapshot file becomes `[]`, keyed files are untouched, and the record's id is unmarked |
| CacheManager.CacheDir.Write | internal/models/cache-methods.go:189-221 | the category file becomes what `WriteResult` computes, or stays as it was on error; status untouched |
| CacheManager.CacheDir.UpdateCacheStatus | internal/api/cache.go:152-208 | status.json becomes the marked document |
| CacheManager.CacheDir.DeleteCacheStatus | internal/api/cache.go:229-285 | status.json becomes the unmarked document |
| CacheManager.CacheDir.UnmarkDoc | internal/api/cache.go:229-285 | the document written back is the unmarked document of the one read |
| CacheManager.CacheDir.Splice | internal/api/cache.go:253-262 | the index-and-splice of the id list gives the list without the id's first occurrence |
| CacheManager.CacheDir.DeleteCacheData | internal/api/cache.go:292-308 | the directory becomes `Evict` of the old one |
| CacheManager.CacheDir.ClearCache | internal/api/cache.go:314-321 | the directory becomes the sweep of the category's snapshot, record by record |
| CacheManager.IsOldCache | internal/api/cache.go:215-222 | a stale record was written before now |
| CacheManager.OldStaysOld | internal/api/cache.go:215-222 | a record that is stale at one time is stale at every later time |
| CacheManager.Sweep | internal/api/cache.go:314-321 | walking a category's snapshot changes no other category's file |
| CacheManager.CacheDir.EmptyCache | internal/api/cache.go:351-384 | every category file but covers holds `[]`, covers.json is untouched, and status.json is the zero document |
| CacheManager.WriteThenRetrieve | internal/api/cache.go:50-67 | a successful write whose datum has a non-empty id, or that replaces the file, is read back by the lookup for the datum's key |
| CacheManager.EmptyIdAppendReadsFirstRecord | internal/api/cache.go:50-67 | an appending write with the empty id to a non-empty list is not read back: the empty-id lookup returns the list's first record, which is the datum only when that record had the datum's key |
| CacheManager.KeyedSweepKeepsFiles | internal/api/cache.go:292-321 | sweeping a keyed category never changes a file |
| CacheManager.KeyedSweepKeepsIndex | internal/api/cache.go:292-321 | sweeping a keyed category keeps a well-formed index well formed and leaves every other category's status as it was |
| CacheManager.KeyedSweepUnmarksStale | internal/api/cache.go:292-321 | after sweeping a keyed category, every id carried by a stale record of the snapshot is reported not cached, even when a recent record shares it, and every other id is reported as before |
| CacheManager.FreshSweepIsNoOp | internal/api/cache.go:215-222 | a sweep over records none of which is older than 24h changes nothing |
| CacheManager.SingletonSweepEmpties | internal/api/cache.go:292-321 | a stale snapshot leaves the file `[]`, the flag cleared, and the next lookup panicking |
| CacheManager.SharedIdUnmarked | internal/api/cache.go:292-321 | evicting a stale record unmarks its id although a recent record of that id remains, and both records stay retrievable |
| CacheRecords.RecordKeys | internal/models/api/api-methods.go:95-193 | the key each record constructor gives: feeds by (id, order, offset), scans and statistics by (id, "", offset), a manga by (id, "", 0), a list by its only manga's id whatever id is passed, tags only for the empty order |
| CacheRecords.PayloadRoundTrip | internal/models/api-methods.go:70-92 | a manga-list or cover-list record decodes back to the response it was built from |
| CacheRecords.MangaListRecord | internal/models/api/api-methods.go:95-105 | stamped now with the given order and offset; keyed by the id of its only manga, or "" for any other number of mangas, whatever id is passed |
| CacheRecords.CoverListRecord | internal/models/api-methods.go:82-92 | stamped now with the given order and page; keyed by the id of its only cover, or "" otherwise |
| CacheRecords.TagsRecord | internal/models/api/api-methods.go:115-126 | a non-empty order gives the zero record; otherwise the tags stamped now under ("", "", offset) |
| CacheRecords.MangaRecord | internal/models/api/api-methods.go:135-141 | the manga stamped now under (id, "", 0), whatever order and offset are passed |
| CacheRecords.FeedRecord | internal/models/api/api-methods.go:151-159 | the feed stamped now under (id, order, offset) |
| CacheRecords.ChapterScanRecord | internal/models/api/api-methods.go:169-176 | the scan stamped now under (id, "", offset), the order being dropped |
| CacheRecords.StatsRecord | internal/models/api/api-methods.go:186-193 | the statistics stamped now under (id, "", offset), the order being dropped |
| Requests.SpecialRequestsDiffer | internal/api/requests.go:19-36 | the two home-page requests differ, and only in their order type |
| Requests.IsCache | internal/api/cache.go:120-129 | only the two home-page requests get a category, always with the empty id, and are cached exactly when that category's flag is set |
| Requests.CacheRequest | internal/api/cache.go:136-145 | a home-page request reads element 0 of its category file; any other request gets the zero record |
| Requests.AfterWrite | internal/api/requests.go:72-80 | the written category's file is what `Write` produces (unchanged when the appending write fails), the status is the marked document and no other category file changes |
| Requests.RequestMangas | internal/api/requests.go:37-84 | the result, whether MangaDex was called and the new directory are `MangaRequestOutcome` of the old directory; a sent query carries the request's parameters |
| Requests.MangaRequestOutcome | internal/api/requests.go:37-84 | MangaDex is called exactly when the cache does not answer; a called request crashes exactly on a missing response, serves the response or the zero value for an undecodable body, and changes the directory only for a special request that got a reply, decodable or not; then the category's file becomes the single record of the answer, its flag is set and no other file changes |
| Requests.SecondRequestFromCache | internal/api/requests.go:37-84 | after a home-page request answered without a panic, asking again is answered from the cache with the same value, without calling MangaDex or changing the directory |
| Requests.OrdinaryRequestBypassesCache | internal/api/requests.go:37-84 | any other request calls MangaDex, returns its answer and leaves the directory untouched |
| Requests.FlaggedEmptyFilePanics | internal/api/cache.go:50-67 | a flagged home-page category whose file is `[]` makes the request panic without calling MangaDex |
| Requests.RequestCover | internal/api/requests.go:86-128 | the result, the upstream call and the new directory are `CoverRequestOutcome` of the old directory |
| Requests.CoverRequestOutcome | internal/api/requests.go:86-128 | MangaDex is always called; the result crashes exactly on a missing response and is otherwise the response or the zero value; a crash leaves the directory as it was; otherwise the answer's record replaces covers.json for the empty id (or a blank file), is upserted into it for a non-empty id, a missing file stays missing for a non-empty id, the index keeps its content and no other file changes |
| Requests.CoverAlwaysUpstream | internal/api/requests.go:86-128 | every cover request calls MangaDex, before and after another; with a non-empty id a missing covers.json stays missing; covers are never reported cached |
| ApiQuery.Params | internal/models/api/api-methods.go:26-44 | the parameter names; an empty order type becomes `order[rating]`, tag lists use `[]` names |
| ApiQuery.LegacyParams | internal/models/api-methods.go:21-36 | the older names: no default order type, tag names without `[]` |
| ApiQuery.OrderTypeOfKey | internal/models/api/api-methods.go:26-30 | reads the order type back out of `order[<type>]` |
| ApiQuery.OrderKeyIsNotFixed | internal/models/api/api-methods.go:26-44 | an order key never collides with a fixed parameter name |
| ApiQuery.ParamNamesDistinct | internal/models/api/api-methods.go:26-44 | the twelve names of each parameter set are pairwise distinct and the order key gives back its type |
| ApiQuery.OrderKeyShape | internal/models/api/api-methods.go:26-30 | the order key is `order[` + type + `]` |
| ApiQuery.QueryOfHoldsRequest | internal/models/api/api-methods.go:51-85 | the filled query carries exactly the request: order, tags, text filters when non-empty, filters, language, rating, limit and offset, and no other name |
| ApiQuery.QueryOfKeys | internal/models/api/api-methods.go:51-85 | the query only uses the request's parameter names |
| ApiQuery.QueryOfOrderAndTags | internal/models/api/api-methods.go:54-63 | the order value and the included and excluded tags are carried |
| ApiQuery.QueryOfText | internal/models/api/api-methods.go:64-72 | title, author and artist are present exactly when non-empty |
| ApiQuery.QueryOfFilters | internal/models/api/api-methods.go:73-80 | status, demographic and language filters are carried |
| ApiQuery.QueryOfPaging | internal/models/api/api-methods.go:81-83 | content rating, limit and offset are carried, the numbers in decimal |
| ApiQuery.FillQuery | internal/models/api/api-methods.go:51-85 | the key-by-key fill builds `QueryOf`, the query whose content `QueryOfHoldsRequest` states |
| ApiQuery.QueryOf | internal/models/api/api-methods.go:51-85 | order, language, rating, limit and offset are always present, and the offset holds the request's offset in decimal |
| ApiQuery.ToQuery | internal/models/api/api-methods.go:51-85 | the query holds the request, with an empty order value sent as `desc` |
| ApiQuery.LegacyToQuery | internal/models/api-methods.go:38-68 | the query holds the request with the older names and the order value as given |
| ApiQuery.QueryPagingRoundTrip | internal/models/api/api-methods.go:82-83 | limit and offset parse back exactly from the query for every 64-bit value |
| Strconv.ItoaRoundTrip | internal/models/api/api-methods.go:82-83 | `Atoi(Itoa(n)) == n` for every 64-bit n |
| ApiQuery.ErrorMessageAppend | internal/models/api/api-methods.go:584-593 | the message of two error lists is the first's followed by the second's |
| ApiQuery.ErrorMessage | internal/models/api/api-methods.go:584-593 | the message is empty exactly when there is no error |
| ApiQuery.ErrorMessageStartsWithFirst | internal/models/api/api-methods.go:584-593 | a non-empty list's message opens with its first entry |
| ApiQuery.CheckResponse | internal/models/api/api-methods.go:584-593 | an error exactly when the error list is non-empty, with every entry in order |
| ApiQuery.LegacyCheckResponse | internal/models/api-methods.go:506-519 | no errors clears the server-error flag; errors give the message and leave the flag set exactly when it was set or some status is 500 or more |
| ApiFormat.FirstOfType | internal/models/api/api-methods.go:510-521 | the index of the first relationship of the type, or -1 |
| ApiFormat.FirstOfTypeUnique | internal/models/api/api-methods.go:510-521 | only one index is the first of a type |
| ApiFormat.ChapterSummary | internal/models/api/api-methods.go:556-577 | a chapter's fields, with the scanlation group of its first scanlation relationship, or empty |
| ApiFormat.FormatChapter | internal/models/api/api-methods.go:556-577 | the loop computes `ChapterSummary` |
| ApiFormat.FormatFeed | internal/models/api/api-methods.go:543-549 | one summary per chapter, in the feed's order |
| ApiFormat.MangaSummary | internal/models/api/api-methods.go:474-524 | the summary carries the manga's id, title, description, language, demographic, status, year, tags and latest chapters, and the given first-chapter id and count; no chapters, not a favourite, nothing read |
| ApiFormat.MangaSummaryPicksFirst | internal/models/api/api-methods.go:511-522 | cover id and file name come from the first cover-art relationship and the author from the first author one, all "" when there is none |
| ApiFormat.ScanRelationships | internal/models/api/api-methods.go:510-521 | the loop finds the first cover art and the first author |
| ApiFormat.FormatManga | internal/models/api/api-methods.go:474-524 | the summary of the manga (all its copied fields, first cover art and author) with the feed's first chapter id (or "") and the feed total as chapter count |
| ApiFormat.LegacyFormatManga | internal/models/api-methods.go:415-466 | the older summary of the manga (all its copied fields, first cover art and author), whose first-chapter id is the latest uploaded chapter and whose chapter count is 0 |
| ApiFormat.LegacyFormatMangas | internal/models/api-methods.go:403-409 | one older summary per manga, in order |
| ApiFormat.Divide | internal/models/api-methods.go:364-373 | the covers of a collection answer, or an error for any other response kind |
| ApiFormat.CoverId | internal/models/api-methods.go:375-383 | the first cover-art id, or "" |
| ApiFormat.CoversId | internal/models/api-methods.go:385-401 | all cover-art ids manga by manga; an error exactly when their count differs from the number of mangas |
| ApiFormat.SingleCoverId | internal/models/api-methods.go:385-401 | a single cover art yields exactly its id |
| ApiFormat.NoIdsNoType | internal/models/api-methods.go:385-401 | a relationship list yielding no ids of a type has no relationship of that type |
| ApiFormat.OneCoverEach | internal/models/api-methods.go:385-401 | with one cover art per manga the ids line up with the mangas |
| Timing.SetDailyTimer | internal/utils/miscellaneous.go:37-48 | for a non-negative hour a delay in [0, 24h) that lands on that hour |
| Timing.DailyDelay | internal/utils/miscellaneous.go:37-48 | for every hour a delay in [0, 24h) that lands on the hour modulo 24 |
| Timing.DailyDelayAgrees | internal/utils/miscellaneous.go:37-48 | the two agree on every non-negative hour |
| Timing.SetDailyTimerNegativeHour | internal/utils/miscellaneous.go:37-48 | hour -3 at 22:00 gives minus one hour where 23 hours was meant |
| Timing.SweepDelay | internal/api/cache.go:338-342 | 24h exactly when the clock is within 03:00-03:15, otherwise the delay to the next 03:00 |
| Timing.Components | internal/utils/miscellaneous.go:25-34 | hours, minutes under 60 and seconds under 60 of a non-negative duration |
| Timing.ComponentsReconstruct | internal/utils/miscellaneous.go:25-34 | the components give the duration back up to less than a second |
| Timing.DurationToString | internal/utils/miscellaneous.go:25-34 | the text is the decimal minutes, `m`, the decimal seconds and `s`, preceded by the decimal hours and `h` exactly when the hours are positive |
| Handlers.NormalizeOrder | controllers/handlers.go:589-604 | "asc" exactly when the parameter is "asc", otherwise "desc" |
| Handlers.NormalizePage | controllers/handlers.go:594-608 | at least 1; the written number when it parses and is positive, otherwise 1 |
| Handlers.PageOffsetRoundTrip | controllers/handlers.go:613 | a page's offset is a non-negative multiple of the page size that gives the page back |
| Handlers.PageOffset | controllers/handlers.go:613 | page 1 starts at offset 0, and no page from 1 on has a negative offset |
| Handlers.PageCount | controllers/handlers.go:616-619 | the ceiling of total over size for non-negative totals, zero only for none |
| Handlers.ListedPagesHoldItems | controllers/handlers.go:1120-1123 | exactly the pages up to the page count start before the end of the list |
| Handlers.PageNumbers | controllers/handlers.go:620-622 | the pages 1..pageMax, none when pageMax is not positive |
| Handlers.CategoryRequest | controllers/handlers.go:1076-1085 | the category search by rating, 18 per page at the page's offset, which is never a cached home-page request |
| Handlers.ParseOffset | controllers/handlers.go:860-863 | the parsed offset, or 0 when it does not parse |
| Handlers.ChapterWindow | controllers/handlers.go:864-884 | the window starts at max(0, offset-5) and ends 5 past the offset; the current chapter sits at index offset minus start, which is 5 unless the window starts at 0 |
| Handlers.FirstNumbered | controllers/handlers.go:888-893 | the first index with the chapter number, or the length |
| Handlers.LastNumbered | controllers/handlers.go:894-899 | the last index with the chapter number, or -1 |
| Handlers.Neighbours | controllers/handlers.go:887-910 | previous is just before the first entry of the current number, next just after the last; the previous link exists iff previous >= 0, the next iff its position is below the total |
| Handlers.ChapterNeighbours | controllers/handlers.go:884-910 | the two search loops compute `Neighbours`; no result (Go's index panic) exactly when the current index is outside the fetched chapters |
| Handlers.LinkOffsetsAreAbsolute | controllers/handlers.go:914-920 | a link's offset is the window start plus the linked entry's index |
| Handlers.NextLinkOutsideWindow | controllers/handlers.go:906-920 | five uploads of chapter 1 and a sixth feed entry give a next link one past the window |
| Handlers.SafeNeighbours | controllers/handlers.go:906-920 | both links point inside the window at entries of another chapter number; otherwise it agrees with `Neighbours` |
| Handlers.FavoriteIndex | controllers/handlers.go:732-737 | -1 exactly when no favourite has the id, else the first one that does |
| Handlers.FavoriteAdded | controllers/handlers.go:719-740 | 200 and the id appended exactly when it is new and non-empty; 409 exactly when it is already present; 404 for the empty id; no change unless 200 |
| Handlers.FavoriteDeleted | controllers/handlers.go:762-788 | 200 exactly when the id is non-empty and present: the first match cut out and the order kept; otherwise 404 and no change |
| Handlers.BannerSet | controllers/handlers.go:805-834 | 200 exactly when the id is a favourite: the banner gets the id and that favourite's last chapter read; otherwise 404 and no change |
| Handlers.DeleteUndoesAdd | controllers/handlers.go:732-788 | deleting a favourite just added restores the list |
| Handlers.AddIsIdempotent | controllers/handlers.go:732-740 | a second add of the same id is a conflict that changes nothing |
| Handlers.FavoritesStayUnique | controllers/handlers.go:732-788 | adds and deletes keep favourite ids unique, and a deleted id is gone |
| Handlers.Account.AddFavorite | controllers/handlers.go:732-740 | the reply and new favourites are `FavoriteAdded` of the old list; banner untouched |
| Handlers.Account.DeleteFavorite | controllers/handlers.go:775-788 | the reply and new favourites are `FavoriteDeleted` of the old list; banner untouched |
| Handlers.Account.SetBanner | controllers/handlers.go:818-832 | the reply and new banner are `BannerSet` of the old state; favourites untouched |
| Scraper.TrimLeftSpec | scraper/main.go:106-111 | leading white space removed and nothing else |
| Scraper.TrimRightSpec | scraper/main.go:106-111 | trailing white space removed and nothing else |
| Scraper.TrimSpaceSlice | scraper/main.go:106-111 | the trimmed text is a middle slice with only white space around it |
| Scraper.TrimSpace | scraper/main.go:107-110 | never longer than its input, and text that neither starts nor ends with white space comes back unchanged |
| Scraper.TrimSpaceEnds | scraper/main.go:106-111 | the trimmed text neither starts nor ends with white space |
| Scraper.TrimSpaceIdempotent | scraper/main.go:106-111 | trimming twice is trimming once |
| Scraper.ToFilename | scraper/main.go:179-182 | only letters, digits and RE2 white space remain, and nothing is added |
| Scraper.ToFilenameKeepsClean | scraper/main.go:179-182 | a name of kept characters is unchanged |
| Scraper.ToFilenameIdempotent | scraper/main.go:179-182 | cleaning twice is cleaning once |
| Scraper.ToFilenameConcat | scraper/main.go:179-182 | cleaning distributes over concatenation |
| Scraper.ToFilenameDropsOnlyUnkept | scraper/main.go:179-182 | the length is kept exactly when every character is kept |
| Scraper.MangaFeedURL | scraper/main.go:45-47 | base, `/manga/`, the id, `/feed` |
| Scraper.ChapterURL | scraper/main.go:49-51 | base, `/at-home/server/`, the id |
| Scraper.URLsInjective | scraper/main.go:45-51 | different ids give different URLs |
| Scraper.ScanImageURL | scraper/main.go:53-55 | server, quality, hash and file name in that order |
| Scraper.OutputDir | scraper/main.go:143-148 | the output directory lies under the destination |
| Scraper.OutputDirShape | scraper/main.go:143-148 | two levels below the destination, no separator from chapter names, and " - <title>" exactly when there is a title |
| Scraper.DedupKeyInjective | scraper/main.go:102 | without '\|' in the volumes, equal keys mean equal (volume, chapter) pairs |
| Scraper.DedupKey | scraper/main.go:102 | the key is the volume, one '\|' and the chapter, the bar sitting right after the volume |
| Scraper.DedupKeyCollision | scraper/main.go:102 | volume "1\|2" chapter "3" and volume "1" chapter "2\|3" share a key |
| Scraper.KeysOfMembers | scraper/main.go:100-114 | a key is seen exactly when some entry carries it |
| Scraper.FirstOccurrences | scraper/main.go:100-114 | the kept indices lie in the feed |
| Scraper.FirstOccurrencesStep | scraper/main.go:100-114 | one more entry is kept exactly when its key is new |
| Scraper.KeptAreFirst | scraper/main.go:100-114 | each kept entry is the first with its key |
| Scraper.KeyKept | scraper/main.go:100-114 | every entry's key is carried by a kept entry |
| Scraper.EveryKeyKept | scraper/main.go:100-114 | every key of the feed is kept |
| Scraper.FirstOccurrencesIncreasing | scraper/main.go:100-114 | kept entries stay in feed order |
| Scraper.KeptKeysDistinct | scraper/main.go:100-114 | no key is kept twice |
| Scraper.DedupChapters | scraper/main.go:100-114 | one trimmed chapter per kept index, in order |
| Scraper.CheckScans | scraper/main.go:219-221 | "no scans found" exactly when neither image set is listed |
| Scraper.ChooseQuality | scraper/main.go:226-237 | `data` when listed, else `data-saver`, else "no scans found" |
| Scraper.CheckedScansHaveQuality | scraper/main.go:205-237 | a scan answer that passed the check always has a quality; the zero answer has none |
| Scraper.DownloadPlan | scraper/main.go:226-251 | one download per image of the chosen set, each at its URL and written under its file name |
| Scraper.Succeeding | scraper/main.go:239-245 | the leading successful downloads end at the first failure |
| Scraper.DownloadChapter | scraper/main.go:226-251 | downloads the plan up to the first failed image and fails exactly when an image failed or no quality was listed |
| Scraper.StatusVerdict | scraper/main.go:290-297 | 200 is no error, 429 counts one more and aborts past five, any other code is unexpected |
| Scraper.RateLimitedRun | scraper/main.go:322-328 | under consecutive 429 answers the counter rises by one each and the sixth from a fresh counter aborts |
| Scraper.RateLimiter.ErrRateLimiter | scraper/main.go:322-328 | the counter goes up by one and the error is the verdict of a 429 |
| Scraper.RateLimiter.CheckStatus | scraper/main.go:290-297 | the error and new counter are `StatusVerdict` of the old counter |

## Left out

- **Concurrency.** The per-file lock registry and its wrappers, the goroutine per category in
  `CacheMonitor`, and the goroutine fan-out in `ApiManga.Format`. Each operation is modelled
  as atomic.
- **`CacheMonitor`'s endless loop and sleeps.** Only its schedule decision is kept (`SweepDelay`).
- **HTTP.** `Request`, every `SendRequest`, `client.Do`, the network call inside
  `Manga.Format`, the image proxies, the scraper's `request`, `downloadScanImage` and
  `createDirs`. Upstream answers are parameters.
- **JSON.** Encoding and decoding are replaced by typed payloads. A payload decodes to its
  own kind, null decodes to the zero value, and any other kind fails. The typed decoders
  other than `ApiManga()` and `ApiCover()` are not modelled.
- **The other fetch functions of internal/api** (manga by id, tags, feeds, scans,
  statistics). They follow the same cache-aside pattern as the two modelled requests.
- **Floating point.** The float `Rating` of `MangaUsefullData` (0 after `Format`), `Fill` (its Bayesian rating rounding) and the float `Hours()` and
  `Minutes()` of `DurationToString`, which the model replaces with integer division.
- **Templates, sessions, users, passwords, e-mail, logging, middlewares, routing and
  `GetIP`.** Favourites are modelled once the session and the user are found. Storing the
  user back is not modelled.
- **The scraper's `main` loop.** This covers its retry after a rate limit and its sleeps,
  plus `getVersion`, `usage`, `dirExists` and `fileExists`. `ErrExit` is modelled as the
  `Aborted` error.
- Handlers.PageOffset: does not model the 64-bit wrap-around of `(pag-1)*size` for page
  numbers near the int64 limit; Go's `int` would overflow there.
- Scraper.JoinPath: does not model `filepath.Join`'s lexical clean-up (collapsing
  separators, `.` and `..`). It is plain concatenation with '/'.
- Scraper.IsSpace: covers Latin-1 and the Unicode space separators that `unicode.IsSpace`
  accepts. Other encodings of the input are not modelled.
- Timing.SetDailyTimer: does not model daylight-saving changes. The clock is a plain time of day and the next occurrence of the hour is 24 hours after today's, where Go builds the target with `time.Date` in the local zone and adds `24*time.Hour`; on a day whose local clock jumps, the real delay differs by the jump. The same holds for `Timing.SweepDelay`, which uses it.
- **File-system errors.** A failed read, marshal or write is logged and skipped in the source. Model writes fail only where the code's own logic fails (an appending write to a missing file).
- **The scraper's `request` on a failed `Client.Do`.** It reads `res.Body` from a nil response, so the scraper panics. The scraper model takes the status codes and image outcomes as given.
- **The older `Fill`.** Its `Chapters[0]` indexing (internal/models/api-methods.go:472) panics on an empty feed. It is left out with the float-valued `Fill`.

## Findings

| source | as written | input that shows it | evidently intended | confidence | as-written member | corrected member |
|---|---|---|---|---|---|---|
| internal/utils/miscellaneous.go:37-48 | the hour is reduced with Go's truncating `%`, so a negative hour stays negative | `SetDailyTimer(-3)` at 22:00 returns minus one hour | a delay in [0, 24h) to the next 21:00 | not executed; the only caller passes 3 | Timing.SetDailyTimerNegativeHour | Timing.DailyDelay |
| controllers/handlers.go:907-918 | the next link indexes `chapters[next]` whenever its position is below the feed total | offset 0, a window of five uploads of chapter 1, feed total 6: `next` is 5 and `chapters[5]` is out of range | a next link only to an entry inside the fetched window | not executed | Handlers.NextLinkOutsideWindow | Handlers.SafeNeighbours |
