/**
 * The cache directory of internal/api/cache.go: one file per category plus status.json,
 * with lookup (`retrieveCacheData`, `retrieveSingleCacheData`), staleness (`isOldCache`),
 * eviction (`deleteCacheData`), the sweep (`clearCache`) and `EmptyCache`. The pure
 * decisions are functions; the operations that rewrite files are methods of `CacheDir`,
 * each tied to a function of the old directory state.
 */
module CacheManager {
  import opened Results
  import opened ApiModels
  import opened CacheModels
  import opened CacheList
  import opened StatusIndex

  /** 24 hours, in nanoseconds (Go's `time.Duration` unit). */
  const Day: int := 24 * 3600 * 1000000000

  /**
   * `retrieveCacheData`: the decoded list, or nil (`None`) when the file cannot be read or
   * is empty.
   */
  function RetrieveCacheData(file: CacheFile): (r: Option<seq<Record>>)
    ensures r.None? <==> !file.Stored?
    ensures r.Some? ==> r.value == file.records
  {
    match file
    case Stored(records) => Some(records)
    case _ => None
  }

  /** What a lookup yields: a record, or the run-time panic of indexing an empty slice. */
  datatype Retrieved = Returned(rec: Record) | IndexPanic

  /**
   * `retrieveSingleCacheData`: an empty id on a non-nil list returns its element 0 (a
   * panic on `[]`); a nil list returns the zero record; otherwise the first record with
   * the key, or the zero record.
   */
  function RetrieveSingleCacheData(file: CacheFile, id: string, order: string, offset: int): (r: Retrieved)
    ensures r.IndexPanic? <==> id == "" && file == Stored([])
    ensures id == "" && file.Stored? && |file.records| > 0 ==> r == Returned(file.records[0])
    ensures !file.Stored? ==> r == Returned(ZeroRecord)
    ensures id != "" && file.Stored? && HasKey(file.records, CacheKey(id, order, offset)) ==>
      r == Returned(file.records[FirstMatch(file.records, CacheKey(id, order, offset))]) &&
      KeyOf(r.rec) == CacheKey(id, order, offset)
    ensures id != "" && file.Stored? && !HasKey(file.records, CacheKey(id, order, offset)) ==>
      r == Returned(ZeroRecord)
  {
    var cacheData := RetrieveCacheData(file);
    if id == "" && cacheData.Some? then
      if |cacheData.value| == 0 then IndexPanic else Returned(cacheData.value[0])
    else if cacheData.None? then Returned(ZeroRecord)
    else
      var k := FirstMatch(cacheData.value, CacheKey(id, order, offset));
      if k == -1 then Returned(ZeroRecord) else Returned(cacheData.value[k])
  }

  /** `isOldCache`: strictly more than 24 hours have passed since the record was written. */
  predicate IsOldCache(now: int, rec: Record): (r: bool)
    ensures r ==> rec.updatedTime < now
  {
    now - rec.updatedTime > Day
  }

  /** A record that is old now stays old at every later time. */
  lemma OldStaysOld(now: int, later: int, rec: Record)
    requires IsOldCache(now, rec) && now <= later
    ensures IsOldCache(later, rec)
  {
  }

  /** A snapshot of the whole cache directory. */
  datatype CacheState = CacheState(files: map<Category, CacheFile>, status: Option<StatusCache>)

  function FileOf(st: CacheState, c: Category): CacheFile {
    if c in st.files then st.files[c] else Missing
  }

  /**
   * The state `deleteCacheData` leaves: a singleton file becomes `[]`; a keyed file is
   * left as it was, since the shortened list is never written back; in both cases the
   * record's id is then unmarked in the status index.
   */
  function Evict(st: CacheState, c: Category, rec: Record): (r: CacheState)
    ensures IsSingleton(c) ==> FileOf(r, c) == Stored([])
    ensures forall c2 :: c2 != c ==> FileOf(r, c2) == FileOf(st, c2)
    ensures !IsSingleton(c) ==> r.files == st.files
    ensures r.status == Some(UnmarkedStatus(st.status, c, rec.id))
  {
    var files := if IsSingleton(c) then st.files[c := Stored([])] else st.files;
    CacheState(files, Some(UnmarkedStatus(st.status, c, rec.id)))
  }

  /** The state after `clearCache` has walked the snapshot `snap` of category `c`. */
  function Sweep(st: CacheState, c: Category, snap: seq<Record>, now: int): (r: CacheState)
    ensures forall c2 :: c2 != c ==> FileOf(r, c2) == FileOf(st, c2)
    decreases |snap|
  {
    if |snap| == 0 then st
    else
      var before := Sweep(st, c, snap[..|snap| - 1], now);
      var last := snap[|snap| - 1];
      if IsOldCache(now, last) then Evict(before, c, last) else before
  }

  /** The records of a file as `clearCache` ranges over them (nothing for a nil list). */
  function Snapshot(file: CacheFile): seq<Record> {
    match file
    case Stored(records) => records
    case _ => []
  }

  /** The cache directory: the category files and status.json. */
  class CacheDir {
    var files: map<Category, CacheFile>
    var status: Option<StatusCache>

    constructor (files0: map<Category, CacheFile>, status0: Option<StatusCache>)
      ensures files == files0 && status == status0
    {
      files := files0;
      status := status0;
    }

    function File(c: Category): CacheFile
      reads this
    {
      if c in files then files[c] else Missing
    }

    function State(): CacheState
      reads this
    {
      CacheState(files, status)
    }

    /**
     * `SingleCacheData.Write` to the category's file: with `append` the current list is
     * read (failing when the file is missing), then the datum is upserted and the list
     * written back; without `append` the file becomes the one-record list.
     */
    method Write(c: Category, datum: Record, append: bool) returns (err: Option<string>)
      modifies this
      ensures var r := WriteResult(old(File(c)), datum, append);
        && (r.Ok? ==> err.None? && files == old(files)[c := Stored(r.value)])
        && (r.Err? ==> err == Some(r.msg) && files == old(files))
      ensures status == old(status)
    {
      err := None;
      var cacheData: seq<Record> := [];
      if append {
        match File(c)
        case Missing =>
          return Some("open: no such file or directory");
        case Blank =>
        case Stored(records) =>
          cacheData := records;
      }
      var present := Exists(cacheData, datum.id, datum.order, datum.offset);
      if present {
        var slots := new Record[|cacheData|](i requires 0 <= i < |cacheData| => cacheData[i]);
        assert slots[..] == cacheData;
        // The datum's key is present, so the slot write always succeeds.
        var _ := Update(slots, datum);
        cacheData := slots[..];
      } else {
        cacheData := cacheData + [datum];
      }
      files := files[c := Stored(cacheData)];
    }

    /**
     * `updateCacheStatus`: sets a singleton's flag, or appends a new id to a keyed list;
     * an id already listed returns before anything is written.
     */
    method UpdateCacheStatus(c: Category, id: string)
      modifies this
      ensures status == Some(MarkedStatus(old(status), c, id))
      ensures files == old(files)
    {
      var doc := Doc(status);
      if IsSingleton(c) {
        doc := WithFlag(doc, c, true);
      } else if c != Covers {
        if id in Members(doc, c) {
          return;
        }
        doc := WithMembers(doc, c, Members(doc, c) + [id]);
      }
      status := Some(doc);
    }

    /** `deleteCacheStatus`: clears a singleton's flag, or splices out the first occurrence. */
    method DeleteCacheStatus(c: Category, id: string)
      modifies this
      ensures status == Some(UnmarkedStatus(old(status), c, id))
      ensures files == old(files)
    {
      var doc := UnmarkDoc(status, c, id);
      status := Some(doc);
    }

    /** The document `deleteCacheStatus` writes back. */
    static method UnmarkDoc(file: Option<StatusCache>, c: Category, id: string) returns (doc: StatusCache)
      ensures doc == UnmarkedStatus(file, c, id)
    {
      doc := Doc(file);
      if IsSingleton(c) {
        doc := WithFlag(doc, c, false);
      } else if c != Covers {
        var kept := Splice(Members(doc, c), id);
        doc := WithMembers(doc, c, kept);
      }
    }

    /** The splice `deleteCacheStatus` performs: the list without the id's first occurrence. */
    static method Splice(ids: seq<string>, id: string) returns (kept: seq<string>)
      ensures kept == Dropped(ids, id)
    {
      var index := IndexOf(ids, id);
      kept := ids;
      if index != -1 {
        kept := ids[..index] + ids[index + 1..];
      }
    }

    /** `deleteCacheData`. */
    method DeleteCacheData(c: Category, data: Record)
      modifies this
      ensures State() == Evict(old(State()), c, data)
    {
      if IsSingleton(c) {
        files := files[c := Stored([])];
      } else {
        var cacheData := RetrieveCacheData(File(c));
        var list := if cacheData.Some? then cacheData.value else [];
        // The shortened list is computed and then dropped, as in the source.
        var _, _ := Delete(list, data.id, data.order, data.offset);
      }
      DeleteCacheStatus(c, data.id);
    }

    /** `clearCache`: evicts every stale record of the category's snapshot, in order. */
    method ClearCache(c: Category, now: int)
      modifies this
      ensures State() == Sweep(old(State()), c, Snapshot(old(File(c))), now)
    {
      var cache := Snapshot(File(c));
      ghost var start := State();
      for i := 0 to |cache|
        invariant State() == Sweep(start, c, cache[..i], now)
      {
        assert cache[..i + 1][..i] == cache[..i];
        if IsOldCache(now, cache[i]) {
          DeleteCacheData(c, cache[i]);
        }
      }
      assert cache[..|cache|] == cache;
    }

    /**
     * `EmptyCache`: every category of the current list gets the file `[]` (covers is not
     * in that list and keeps its file), then status.json becomes the zero document.
     */
    method EmptyCache()
      modifies this
      ensures forall c :: c != Covers ==> File(c) == Stored([])
      ensures File(Covers) == old(File(Covers))
      ensures status == Some(ZeroStatus)
    {
      var infos := [Popular, LastUploaded, Tags, Mangas, MangaFeeds, MangaStats, ChaptersScan, Categories];
      for i := 0 to |infos|
        invariant forall j :: 0 <= j < i ==> File(infos[j]) == Stored([])
        invariant File(Covers) == old(File(Covers))
      {
        files := files[infos[i] := Stored([])];
      }
      status := Some(ZeroStatus);
      forall c | c != Covers ensures File(c) == Stored([]) {
        match c
        case Popular => assert File(infos[0]) == Stored([]);
        case LastUploaded => assert File(infos[1]) == Stored([]);
        case Tags => assert File(infos[2]) == Stored([]);
        case Mangas => assert File(infos[3]) == Stored([]);
        case MangaFeeds => assert File(infos[4]) == Stored([]);
        case MangaStats => assert File(infos[5]) == Stored([]);
        case ChaptersScan => assert File(infos[6]) == Stored([]);
        case Categories => assert File(infos[7]) == Stored([]);
      }
    }
  }

  /**
   * A write without append, or with a non-empty id, is read back by the lookup for the
   * datum's key.
   */
  lemma WriteThenRetrieve(file: CacheFile, datum: Record, append: bool)
    requires WriteResult(file, datum, append).Ok?
    requires datum.id != "" || !append
    ensures RetrieveSingleCacheData(Stored(WriteResult(file, datum, append).value), datum.id, datum.order, datum.offset)
      == Returned(datum)
  {
    var r := WriteResult(file, datum, append).value;
    assert HasKey(r, KeyOf(datum));
  }

  /**
   * The case `WriteThenRetrieve` excludes: after an appending write with the empty id to
   * a non-empty list, the empty-id lookup returns the list's first record, which is the
   * datum only when that record already had the datum's key.
   */
  lemma EmptyIdAppendReadsFirstRecord(records: seq<Record>, datum: Record)
    requires datum.id == "" && |records| > 0
    ensures RetrieveSingleCacheData(Stored(WriteResult(Stored(records), datum, true).value), datum.id, datum.order, datum.offset)
      == Returned(if KeyOf(records[0]) == KeyOf(datum) then datum else records[0])
  {
    var r := Upsert(records, datum);
    if KeyOf(records[0]) == KeyOf(datum) {
      assert FirstMatch(records, KeyOf(datum)) == 0;
      assert HasKey(records, KeyOf(datum));
      assert FirstMatch(r, KeyOf(datum)) == 0;
    } else {
      assert FirstMatch(records, KeyOf(datum)) != 0;
      assert r[0] == records[0];
    }
  }

  /** Sweeping a keyed category never changes any file: its evictions are not persisted. */
  lemma {:induction false} KeyedSweepKeepsFiles(st: CacheState, c: Category, snap: seq<Record>, now: int)
    requires !IsSingleton(c)
    ensures Sweep(st, c, snap, now).files == st.files
    decreases |snap|
  {
    if |snap| > 0 {
      KeyedSweepKeepsFiles(st, c, snap[..|snap| - 1], now);
    }
  }

  /** The ids of the records of `snap` that are stale at `now`. */
  function StaleIds(snap: seq<Record>, now: int): set<string>
    decreases |snap|
  {
    if |snap| == 0 then {}
    else
      var last := snap[|snap| - 1];
      StaleIds(snap[..|snap| - 1], now) + if IsOldCache(now, last) then {last.id} else {}
  }

  /**
   * Sweeping a keyed category keeps a well-formed index well formed and leaves every other
   * category's status as it was.
   */
  lemma {:induction false} KeyedSweepKeepsIndex(st: CacheState, c: Category, snap: seq<Record>, now: int)
    requires !IsSingleton(c) && c != Covers
    requires st.status.Some? ==> WellFormed(st.status.value)
    ensures var after := Sweep(st, c, snap, now);
      after.status.Some? ==> WellFormed(after.status.value)
    ensures var after := Sweep(st, c, snap, now);
      forall c2, id :: c2 != c ==> CheckStatus(after.status, c2, id) == CheckStatus(st.status, c2, id)
    decreases |snap|
  {
    if |snap| > 0 {
      var prefix := snap[..|snap| - 1];
      var last := snap[|snap| - 1];
      KeyedSweepKeepsIndex(st, c, prefix, now);
      if IsOldCache(now, last) {
        UnmarkStep(Sweep(st, c, prefix, now).status, c, last.id);
      }
    }
  }

  /**
   * Sweeping a keyed category reports every id of a stale record of the snapshot as not
   * cached, whatever its other records, and every other id of the category as before.
   */
  lemma {:induction false} KeyedSweepUnmarksStale(st: CacheState, c: Category, snap: seq<Record>, now: int)
    requires !IsSingleton(c) && c != Covers
    requires st.status.Some? ==> WellFormed(st.status.value)
    ensures var after := Sweep(st, c, snap, now);
      forall id :: id in StaleIds(snap, now) ==> !CheckStatus(after.status, c, id)
    ensures var after := Sweep(st, c, snap, now);
      forall id :: id !in StaleIds(snap, now) ==> CheckStatus(after.status, c, id) == CheckStatus(st.status, c, id)
    decreases |snap|
  {
    if |snap| > 0 {
      var prefix := snap[..|snap| - 1];
      var last := snap[|snap| - 1];
      KeyedSweepUnmarksStale(st, c, prefix, now);
      KeyedSweepKeepsIndex(st, c, prefix, now);
      var before := Sweep(st, c, prefix, now);
      var after := Sweep(st, c, snap, now);
      if IsOldCache(now, last) {
        assert after.status == Some(UnmarkedStatus(before.status, c, last.id));
        assert StaleIds(snap, now) == StaleIds(prefix, now) + {last.id};
        UnmarkStep(before.status, c, last.id);
        StaleStep(st.status, before.status, after.status, c, StaleIds(prefix, now), last.id);
      } else {
        assert after == before;
        assert StaleIds(snap, now) == StaleIds(prefix, now);
      }
    }
  }

  /**
   * The sweep's induction step on the index alone: a status that reports the ids of `ids`
   * as not cached and the rest as `start` did, once one more id is unmarked, reports `ids`
   * and that id as not cached and the rest as `start` did.
   */
  lemma StaleStep(start: Option<StatusCache>, before: Option<StatusCache>, after: Option<StatusCache>,
                  c: Category, ids: set<string>, id: string)
    requires forall id2 :: id2 in ids ==> !CheckStatus(before, c, id2)
    requires forall id2 :: id2 !in ids ==> CheckStatus(before, c, id2) == CheckStatus(start, c, id2)
    requires !CheckStatus(after, c, id)
    requires forall id2 :: id2 != id ==> CheckStatus(after, c, id2) == CheckStatus(before, c, id2)
    ensures forall id2 :: id2 in ids + {id} ==> !CheckStatus(after, c, id2)
    ensures forall id2 :: id2 !in ids + {id} ==> CheckStatus(after, c, id2) == CheckStatus(start, c, id2)
  {
  }

  /** One unmarking, as the sweep's induction step uses it. */
  lemma UnmarkStep(file: Option<StatusCache>, c: Category, id: string)
    requires file.Some? ==> WellFormed(file.value)
    ensures WellFormed(UnmarkedStatus(file, c, id))
    ensures !CheckStatus(Some(UnmarkedStatus(file, c, id)), c, id)
    ensures forall c2, id2 :: c2 != c || (id2 != id && !IsSingleton(c)) ==>
      CheckStatus(Some(UnmarkedStatus(file, c, id)), c2, id2) == CheckStatus(file, c2, id2)
  {
    UnmarkKeepsWellFormed(file, c, id);
    UnmarkThenCheck(file, c, id);
    forall c2, id2 | c2 != c || (id2 != id && !IsSingleton(c)) {
      UnmarkFrame(file, c, id, c2, id2);
    }
  }

  /** A snapshot with no stale record leaves the whole directory as it was. */
  lemma {:induction false} FreshSweepIsNoOp(st: CacheState, c: Category, snap: seq<Record>, now: int)
    requires forall i :: 0 <= i < |snap| ==> !IsOldCache(now, snap[i])
    ensures Sweep(st, c, snap, now) == st
    decreases |snap|
  {
    if |snap| > 0 {
      FreshSweepIsNoOp(st, c, snap[..|snap| - 1], now);
    }
  }

  /**
   * A singleton category with a stale record ends the sweep with the file `[]` and its
   * flag cleared, so the next lookup of it panics.
   */
  lemma {:induction false} SingletonSweepEmpties(st: CacheState, c: Category, snap: seq<Record>, now: int, k: nat)
    requires IsSingleton(c)
    requires k < |snap| && IsOldCache(now, snap[k])
    ensures FileOf(Sweep(st, c, snap, now), c) == Stored([])
    ensures !CheckStatus(Sweep(st, c, snap, now).status, c, "")
    ensures RetrieveSingleCacheData(FileOf(Sweep(st, c, snap, now), c), "", "", 0) == IndexPanic
    decreases |snap|
  {
    var init := snap[..|snap| - 1];
    var last := snap[|snap| - 1];
    if k < |snap| - 1 {
      assert init[k] == snap[k];
      SingletonSweepEmpties(st, c, init, now, k);
    }
    var before := Sweep(st, c, init, now);
    if !IsOldCache(now, last) {
      assert Sweep(st, c, snap, now) == before;
    } else {
      assert Flag(UnmarkedStatus(before.status, c, last.id), c) == false;
    }
  }

  /**
   * Membership is tracked by id alone: evicting a stale record unmarks its id even when a
   * recent record with the same id (another order or offset) is still in the file, and the
   * stale record itself is still in the keyed file after its eviction.
   */
  lemma SharedIdUnmarked(st: CacheState, c: Category, stale: Record, recent: Record, now: int)
    requires !IsSingleton(c) && c != Covers
    requires st.status.Some? && WellFormed(st.status.value)
    requires FileOf(st, c) == Stored([stale, recent])
    requires stale.id == recent.id && stale.id != "" && KeyOf(stale) != KeyOf(recent)
    requires IsOldCache(now, stale) && !IsOldCache(now, recent)
    ensures var after := Sweep(st, c, [stale, recent], now);
      && !CheckStatus(after.status, c, recent.id)
      && RetrieveSingleCacheData(FileOf(after, c), recent.id, recent.order, recent.offset) == Returned(recent)
      && RetrieveSingleCacheData(FileOf(after, c), stale.id, stale.order, stale.offset) == Returned(stale)
  {
    var snap := [stale, recent];
    assert snap[..1] == [stale];
    assert [stale][..0] == [];
    assert Sweep(st, c, [stale], now) == Evict(st, c, stale);
    var after := Sweep(st, c, snap, now);
    assert after == Evict(st, c, stale);
    UnmarkThenCheck(st.status, c, stale.id);
    var recs := [stale, recent];
    assert KeyOf(recs[1]) == KeyOf(recent);
    assert FirstMatch(recs, KeyOf(recent)) == 1;
    assert FirstMatch(recs, KeyOf(stale)) == 0;
  }
}
