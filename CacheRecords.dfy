/**
 * The `SingleCacheData` constructors of internal/models/api/api-methods.go (and the two
 * of internal/models/api-methods.go): which key fields each response type fills in. `now`
 * is the clock reading stored as `UpdatedTime`.
 */
module CacheRecords {
  import opened Results
  import opened ApiModels
  import opened CacheModels
  import opened CacheList

  /** `ApiManga.SingleCacheData`: the id argument is ignored; a one-manga list gives its id. */
  function MangaListRecord(data: ApiManga, id: string, order: string, offset: int, now: int): (r: Record)
    ensures r.updatedTime == now && KeyOf(r).order == order && KeyOf(r).offset == offset
    ensures |data.data| == 1 ==> KeyOf(r).id == data.data[0].id
    ensures |data.data| != 1 ==> KeyOf(r).id == ""
  {
    Record(if |data.data| == 1 then data.data[0].id else "", now, order, offset, MangaList(data))
  }

  /** `ApiCover.SingleCacheData` of the older package: the same rule for a one-cover list. */
  function CoverListRecord(data: ApiCover, id: string, order: string, offset: int, now: int): (r: Record)
    ensures r.updatedTime == now && KeyOf(r).order == order && KeyOf(r).offset == offset
    ensures |data.data| == 1 ==> KeyOf(r).id == data.data[0].id
    ensures |data.data| != 1 ==> KeyOf(r).id == ""
  {
    Record(if |data.data| == 1 then data.data[0].id else "", now, order, offset, CoverList(data))
  }

  /** `ApiTags.SingleCacheData`: a non-empty order is refused with the zero record. */
  function TagsRecord(data: ApiTags, id: string, order: string, offset: int, now: int): (r: Record)
    ensures order != "" ==> r == ZeroRecord
    ensures order == "" ==> r.updatedTime == now && KeyOf(r) == CacheKey("", "", offset) && r.data == TagList(data)
  {
    if order != "" then ZeroRecord else Record("", now, "", offset, TagList(data))
  }

  /** `Manga.SingleCacheData`: only the id is copied. */
  function MangaRecord(data: Manga, id: string, order: string, offset: int, now: int): (r: Record)
    ensures r.updatedTime == now && KeyOf(r) == CacheKey(id, "", 0) && r.data == SingleManga(data)
  {
    Record(id, now, "", 0, SingleManga(data))
  }

  /** `ApiMangaFeed.SingleCacheData`: id, order and offset are all copied. */
  function FeedRecord(data: ApiMangaFeed, id: string, order: string, offset: int, now: int): (r: Record)
    ensures r.updatedTime == now && KeyOf(r) == CacheKey(id, order, offset) && r.data == Feed(data)
  {
    Record(id, now, order, offset, Feed(data))
  }

  /** `ApiChapterScan.SingleCacheData`: id and offset, no order. */
  function ChapterScanRecord(data: ApiChapterScan, id: string, order: string, offset: int, now: int): (r: Record)
    ensures r.updatedTime == now && KeyOf(r) == CacheKey(id, "", offset) && r.data == ChapterScan(data)
  {
    Record(id, now, "", offset, ChapterScan(data))
  }

  /** `ApiMangaStats.SingleCacheData`: id and offset, no order. */
  function StatsRecord(data: ApiMangaStats, id: string, order: string, offset: int, now: int): (r: Record)
    ensures r.updatedTime == now && KeyOf(r) == CacheKey(id, "", offset) && r.data == Stats(data)
  {
    Record(id, now, "", offset, Stats(data))
  }

  /**
   * The key each constructor gives its record, hence the key a later lookup must use:
   * feeds are found by (id, order, offset), scans and statistics by (id, "", offset), a
   * single manga by (id, "", 0) whatever order and offset it was built with, and a manga
   * list by the id of its only manga (or "") whatever id it was given.
   */
  lemma RecordKeys(id: string, order: string, offset: int, now: int)
    ensures forall d :: KeyOf(FeedRecord(d, id, order, offset, now)) == CacheKey(id, order, offset)
    ensures forall d :: KeyOf(ChapterScanRecord(d, id, order, offset, now)) == CacheKey(id, "", offset)
    ensures forall d :: KeyOf(StatsRecord(d, id, order, offset, now)) == CacheKey(id, "", offset)
    ensures forall d :: KeyOf(MangaRecord(d, id, order, offset, now)) == CacheKey(id, "", 0)
    ensures forall d, id2 :: MangaListRecord(d, id, order, offset, now) == MangaListRecord(d, id2, order, offset, now)
    ensures forall d: ApiManga :: |d.data| != 1 ==> KeyOf(MangaListRecord(d, id, order, offset, now)) == CacheKey("", order, offset)
    ensures forall d :: order != "" ==> TagsRecord(d, id, order, offset, now) == ZeroRecord
    ensures forall d :: order == "" ==> KeyOf(TagsRecord(d, id, order, offset, now)) == CacheKey("", "", offset)
  {
  }

  /** The payload of a list record decodes back to the response it was built from. */
  lemma PayloadRoundTrip(manga: ApiManga, cover: ApiCover, id: string, order: string, offset: int, now: int)
    ensures DecodeApiManga(MangaListRecord(manga, id, order, offset, now).data) == Ok(manga)
    ensures DecodeApiCover(CoverListRecord(cover, id, order, offset, now).data) == Ok(cover)
  {
  }
}
