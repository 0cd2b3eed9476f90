/**
 * The cache-aside requests of internal/api/requests.go (`MangaRequest`, `CoverRequest`)
 * with the cache decisions they rely on in internal/api/cache.go (`isCache`,
 * `cacheRequest`). The MangaDex call is a parameter: what the upstream answered.
 */
module Requests {
  import opened Results
  import opened ApiModels
  import opened CacheModels
  import opened CacheList
  import opened StatusIndex
  import opened CacheManager
  import opened CacheRecords
  import opened ApiQuery

  /** The top-ten-by-rating request of the home page. */
  const TopPopularRequest: MangaRequest :=
    MangaRequest("rating", "desc", None, None, "", "", "", None, None, 10, 0)

  /** The top-ten-by-latest-upload request of the home page. */
  const TopLatestUploadedRequest: MangaRequest :=
    MangaRequest("latestUploadedChapter", "desc", None, None, "", "", "", None, None, 10, 0)

  /** The two cacheable requests are different and differ only in their order type. */
  lemma SpecialRequestsDiffer()
    ensures TopPopularRequest != TopLatestUploadedRequest
    ensures TopPopularRequest.(orderType := "latestUploadedChapter") == TopLatestUploadedRequest
  {
  }

  predicate IsSpecial(r: MangaRequest) {
    r == TopPopularRequest || r == TopLatestUploadedRequest
  }

  /** The answer of `isCache`: cached or not, the category (`None` for ""), and the id. */
  datatype CacheLookup = CacheLookup(cached: bool, info: Option<Category>, id: string)

  /**
   * `isCache`: only a request equal to one of the two special requests is cacheable, in
   * the popular or last-uploaded category, always with the empty id.
   */
  function IsCache(status: Option<StatusCache>, r: MangaRequest): (l: CacheLookup)
    ensures l.id == ""
    ensures l.info.Some? <==> IsSpecial(r)
    ensures l.info.Some? ==> IsSingleton(l.info.value)
    ensures l.info.Some? ==> (l.cached <==> CheckStatus(status, l.info.value, ""))
    ensures l.info.None? ==> !l.cached
  {
    if r == TopPopularRequest then CacheLookup(CheckStatus(status, Popular, ""), Some(Popular), "")
    else if r == TopLatestUploadedRequest then CacheLookup(CheckStatus(status, LastUploaded, ""), Some(LastUploaded), "")
    else CacheLookup(false, None, "")
  }

  /**
   * `cacheRequest`: the singleton record of the request's category (element 0 of its
   * file), or the zero record for any other request.
   */
  function CacheRequest(st: CacheState, r: MangaRequest): (c: Retrieved)
    ensures !IsSpecial(r) ==> c == Returned(ZeroRecord)
    ensures IsSpecial(r) ==>
      c == RetrieveSingleCacheData(FileOf(st, IsCache(st.status, r).info.value), "", "", 0)
  {
    if r == TopPopularRequest then RetrieveSingleCacheData(FileOf(st, Popular), "", "", 0)
    else if r == TopLatestUploadedRequest then RetrieveSingleCacheData(FileOf(st, LastUploaded), "", "", 0)
    else Returned(ZeroRecord)
  }

  /**
   * What the upstream call gave: a decodable answer, a body that does not decode (Go
   * then keeps the zero value), or no response at all (the nil response is then
   * dereferenced and the handler panics).
   */
  datatype Fetched<T> = Response(value: T) | Garbled | Unreachable

  /** What a request returns to its caller: a value (possibly zero), or a panic. */
  datatype Served<T> = Served(value: T) | Crashed

  /** A request's result, whether MangaDex was called, and the cache directory afterwards. */
  datatype Outcome<T> = Outcome(served: Served<T>, calledUpstream: bool, after: CacheState)

  /** The manga list a cached record decodes to (the zero value when it does not decode). */
  function CachedApiManga(rec: Record): ApiManga {
    var d := DecodeApiManga(rec.data);
    if d.Ok? then d.value else ZeroApiManga
  }

  /** The directory after `Write` of `rec` to category `c` and `updateCacheStatus(c, id)`. */
  function AfterWrite(st: CacheState, c: Category, rec: Record, append: bool, id: string): (r: CacheState)
    ensures r.status == Some(MarkedStatus(st.status, c, id))
    ensures forall c2 :: c2 != c ==> FileOf(r, c2) == FileOf(st, c2)
    ensures var w := WriteResult(FileOf(st, c), rec, append);
      FileOf(r, c) == if w.Ok? then Stored(w.value) else FileOf(st, c)
  {
    var w := WriteResult(FileOf(st, c), rec, append);
    CacheState(if w.Ok? then st.files[c := Stored(w.value)] else st.files, Some(MarkedStatus(st.status, c, id)))
  }

  /**
   * The outcome of `MangaRequest`: a cached special request is answered from its file
   * without calling MangaDex; otherwise MangaDex is called and, for a special request,
   * its answer replaces the category's file and the category is marked.
   */
  function MangaRequestOutcome(st: CacheState, request: MangaRequest, upstream: Fetched<ApiManga>, now: int): (r: Outcome<ApiManga>)
    ensures r.calledUpstream <==> !IsCache(st.status, request).cached
    ensures r.calledUpstream ==> (r.served.Crashed? <==> upstream.Unreachable?)
    ensures r.calledUpstream && upstream.Response? ==> r.served == Served(upstream.value)
    ensures r.calledUpstream && upstream.Garbled? ==> r.served == Served(ZeroApiManga)
    ensures !r.calledUpstream || IsCache(st.status, request).info.None? || upstream.Unreachable? ==> r.after == st
    ensures r.calledUpstream && IsSpecial(request) && !upstream.Unreachable? ==>
      var c := IsCache(st.status, request).info.value;
      var response := if upstream.Response? then upstream.value else ZeroApiManga;
      && FileOf(r.after, c) == Stored([MangaListRecord(response, "", request.orderValue, request.offset, now)])
      && CheckStatus(r.after.status, c, "")
      && (forall c2 :: c2 != c ==> FileOf(r.after, c2) == FileOf(st, c2))
  {
    var lookup := IsCache(st.status, request);
    if lookup.cached then
      match CacheRequest(st, request)
      case IndexPanic => Outcome(Crashed, false, st)
      case Returned(rec) => Outcome(Served(CachedApiManga(rec)), false, st)
    else if upstream.Unreachable? then Outcome(Crashed, true, st)
    else
      var response := if upstream.Response? then upstream.value else ZeroApiManga;
      if lookup.info.None? then Outcome(Served(response), true, st)
      else
        var rec := MangaListRecord(response, lookup.id, request.orderValue, request.offset, now);
        Outcome(Served(response), true, AfterWrite(st, lookup.info.value, rec, lookup.id != "", lookup.id))
  }

  /** `MangaRequest`, also returning the query sent to MangaDex (empty when none was sent). */
  method RequestMangas(dir: CacheDir, request: MangaRequest, upstream: Fetched<ApiManga>, now: int)
      returns (served: Served<ApiManga>, calledUpstream: bool, query: Query)
    modifies dir
    ensures Outcome(served, calledUpstream, dir.State()) == MangaRequestOutcome(old(dir.State()), request, upstream, now)
    ensures calledUpstream ==> HoldsRequest(query, LegacyParams(request), request, request.orderValue)
  {
    query := map[];
    var lookup := IsCache(dir.status, request);
    if lookup.cached {
      var cached := CacheRequest(dir.State(), request);
      if cached.IndexPanic? {
        return Crashed, false, query;
      }
      return Served(CachedApiManga(cached.rec)), false, query;
    }
    query := LegacyToQuery(request);
    if upstream.Unreachable? {
      return Crashed, true, query;
    }
    var response := ZeroApiManga;
    if upstream.Response? {
      response := upstream.value;
    }
    if lookup.info.Some? {
      var rec := MangaListRecord(response, lookup.id, request.orderValue, request.offset, now);
      var _ := dir.Write(lookup.info.value, rec, lookup.id != "");
      dir.UpdateCacheStatus(lookup.info.value, lookup.id);
    }
    return Served(response), true, query;
  }

  /**
   * Cache-aside round trip: once a special request has been answered without a panic,
   * asking it again is answered from the cache, without calling MangaDex, with the same
   * value and no change to the directory.
   */
  lemma SecondRequestFromCache(st: CacheState, request: MangaRequest, up1: Fetched<ApiManga>, up2: Fetched<ApiManga>, now1: int, now2: int)
    requires IsSpecial(request)
    requires MangaRequestOutcome(st, request, up1, now1).served.Served?
    ensures var first := MangaRequestOutcome(st, request, up1, now1);
      MangaRequestOutcome(first.after, request, up2, now2) == Outcome(first.served, false, first.after)
  {
    var first := MangaRequestOutcome(st, request, up1, now1);
    var lookup := IsCache(st.status, request);
    if !lookup.cached {
      var c := lookup.info.value;
      var response := if up1.Response? then up1.value else ZeroApiManga;
      var rec := MangaListRecord(response, "", request.orderValue, request.offset, now1);
      assert WriteResult(FileOf(st, c), rec, false) == Ok([rec]);
      assert FileOf(first.after, c) == Stored([rec]);
      assert CheckStatus(first.after.status, c, "");
      assert RetrieveSingleCacheData(Stored([rec]), "", "", 0) == Returned(rec);
      assert CachedApiManga(rec) == response;
    }
  }

  /** A request other than the two special ones always goes to MangaDex and never touches the cache. */
  lemma OrdinaryRequestBypassesCache(st: CacheState, request: MangaRequest, upstream: Fetched<ApiManga>, now: int)
    requires !IsSpecial(request)
    ensures MangaRequestOutcome(st, request, upstream, now).calledUpstream
    ensures MangaRequestOutcome(st, request, upstream, now).after == st
    ensures upstream.Response? ==> MangaRequestOutcome(st, request, upstream, now).served == Served(upstream.value)
  {
  }

  /**
   * A special request on a cache whose file is `[]` but whose flag is still set panics
   * without calling MangaDex: the state a sweep of a stale singleton leaves when the flag
   * was set again in between, or an `EmptyCache` whose status write failed.
   */
  lemma FlaggedEmptyFilePanics(st: CacheState, request: MangaRequest, upstream: Fetched<ApiManga>, now: int)
    requires IsSpecial(request)
    requires CheckStatus(st.status, IsCache(st.status, request).info.value, "")
    requires FileOf(st, IsCache(st.status, request).info.value) == Stored([])
    ensures MangaRequestOutcome(st, request, upstream, now) == Outcome(Crashed, false, st)
  {
  }

  /**
   * The outcome of `CoverRequest`: the covers category is never reported cached, so
   * MangaDex is always called; the answer is upserted into covers.json (appending when
   * the id is non-empty) and `updateCacheStatus(covers, id)` rewrites the index.
   */
  function CoverRequestOutcome(st: CacheState, id: string, upstream: Fetched<ApiCover>, now: int): (r: Outcome<ApiCover>)
    ensures r.calledUpstream
    ensures r.served.Crashed? <==> upstream.Unreachable?
    ensures upstream.Response? ==> r.served == Served(upstream.value)
    ensures upstream.Garbled? ==> r.served == Served(ZeroApiCover)
    ensures upstream.Unreachable? ==> r.after == st
    ensures !upstream.Unreachable? ==>
      var rec := CoverListRecord(if upstream.Response? then upstream.value else ZeroApiCover, "", "", 0, now);
      var file := FileOf(st, Covers);
      && (id == "" || file.Blank? ==> FileOf(r.after, Covers) == Stored([rec]))
      && (id != "" && file.Stored? ==> FileOf(r.after, Covers) == Stored(Upsert(file.records, rec)))
      && (id != "" && file.Missing? ==> FileOf(r.after, Covers) == Missing)
      && r.after.status == Some(Doc(st.status))
      && (forall c2 :: c2 != Covers ==> FileOf(r.after, c2) == FileOf(st, c2))
  {
    if upstream.Unreachable? then Outcome(Crashed, true, st)
    else
      var response := if upstream.Response? then upstream.value else ZeroApiCover;
      var rec := CoverListRecord(response, "", "", 0, now);
      Outcome(Served(response), true, AfterWrite(st, Covers, rec, id != "", id))
  }

  /** `CoverRequest`. */
  method RequestCover(dir: CacheDir, id: string, upstream: Fetched<ApiCover>, now: int)
      returns (served: Served<ApiCover>, calledUpstream: bool)
    modifies dir
    ensures Outcome(served, calledUpstream, dir.State()) == CoverRequestOutcome(old(dir.State()), id, upstream, now)
  {
    if CheckStatus(dir.status, Covers, id) {
      // checkStatus has no covers case: this branch is never taken.
      assert false;
    }
    calledUpstream := true;
    if upstream.Unreachable? {
      return Crashed, true;
    }
    var response := ZeroApiCover;
    if upstream.Response? {
      response := upstream.value;
    }
    var rec := CoverListRecord(response, "", "", 0, now);
    var _ := dir.Write(Covers, rec, id != "");
    dir.UpdateCacheStatus(Covers, id);
    return Served(response), true;
  }

  /**
   * Covers are never served from the cache: every cover request calls MangaDex, before
   * and after any earlier cover request, and with a non-empty id a missing covers.json is
   * never created (the appending write fails to read it).
   */
  lemma CoverAlwaysUpstream(st: CacheState, id: string, up1: Fetched<ApiCover>, up2: Fetched<ApiCover>, now1: int, now2: int)
    ensures CoverRequestOutcome(st, id, up1, now1).calledUpstream
    ensures var first := CoverRequestOutcome(st, id, up1, now1);
      CoverRequestOutcome(first.after, id, up2, now2).calledUpstream
    ensures id != "" && FileOf(st, Covers) == Missing ==>
      FileOf(CoverRequestOutcome(st, id, up1, now1).after, Covers) == Missing
    ensures !CheckStatus(CoverRequestOutcome(st, id, up1, now1).after.status, Covers, id)
  {
  }
}
