/**
 * Response and request records of the MangaDex API client
 * (internal/models/api-models.go). Only the fields the modelled code reads or writes are
 * kept (the float `Rating` of `MangaUsefullData` is not); Go's nil pointers and the nil
 * slices that the code tests against nil are `Option<_>`.
 */
module ApiModels {
  import opened Results

  /** The publication-demographic tags offered by the search form. */
  const MangaPublic: seq<string> := ["shounen", "seinen", "shoujo", "josei", "none"]

  /** The publication-status tags offered by the search form. */
  const MangaStatus: seq<string> := ["ongoing", "completed", "hiatus", "cancelled"]

  predicate NoDuplicates(s: seq<string>) {
    forall i, j :: 0 <= i < j < |s| ==> s[i] != s[j]
  }

  /** One entry of the `errors` array of a MangaDex response. */
  datatype ApiErr = ApiErr(id: string, status: int, title: string, detail: string)

  /** An entry of a `relationships` array (cover art, author, scanlation group, ...). */
  datatype Relationship = Relationship(id: string, relType: string, related: string, name: string, fileName: string)

  datatype Manga = Manga(
    id: string,
    title: string,
    description: string,
    originalLanguage: string,
    lastChapter: string,
    status: string,
    latestUploadedChapter: string,
    publicationDemographic: Option<string>,
    year: Option<int>,
    tags: seq<ApiTag>,
    relationships: seq<Relationship>)

  datatype Chapter = Chapter(
    id: string,
    title: string,
    volume: string,
    chapter: string,
    pages: int,
    translatedLanguage: string,
    uploader: string,
    updatedAt: string,
    relationships: seq<Relationship>)

  datatype ApiTag = ApiTag(id: string, name: string, group: string)

  datatype ApiManga = ApiManga(result: string, errors: seq<ApiErr>, response: string, data: seq<Manga>, limit: int, offset: int, total: int)
  datatype ApiTags = ApiTags(result: string, errors: seq<ApiErr>, response: string, data: seq<ApiTag>, limit: int, offset: int, total: int)
  datatype ApiMangaFeed = ApiMangaFeed(result: string, errors: seq<ApiErr>, response: string, data: seq<Chapter>, limit: int, offset: int, total: int)

  /** The `chapter` object of an at-home server answer: image file names per quality. */
  datatype ScanSet = ScanSet(hash: string, data: Option<seq<string>>, dataSaver: Option<seq<string>>)
  datatype ApiChapterScan = ApiChapterScan(result: string, errors: seq<ApiErr>, baseUrl: string, chapter: ScanSet)

  /** Statistics are an untyped JSON object in the source; they are not modelled. */
  datatype ApiMangaStats = ApiMangaStats(result: string, errors: seq<ApiErr>)

  /** Cover metadata (the declaration of `ApiCover` is not part of this model; these are the fields the code reads). */
  datatype Cover = Cover(id: string, fileName: string)
  datatype ApiCover = ApiCover(result: string, errors: seq<ApiErr>, response: string, data: seq<Cover>)

  /** All parameters of a manga search; nil lists are `None`. */
  datatype MangaRequest = MangaRequest(
    orderType: string,
    orderValue: string,
    includedTags: Option<seq<string>>,
    excludedTags: Option<seq<string>>,
    title: string,
    author: string,
    authorOrArtist: string,
    status: Option<seq<string>>,
    public: Option<seq<string>>,
    limit: int,
    offset: int)

  /** The query-parameter names of a manga search. */
  datatype MangaRequestParam = MangaRequestParam(
    order: string,
    includedTags: string,
    excludedTags: string,
    translatedLanguage: string,
    title: string,
    author: string,
    authorOrArtist: string,
    status: string,
    public: string,
    contentRating: string,
    limit: string,
    offset: string)

  datatype ChapterUsefullData = ChapterUsefullData(
    id: string,
    title: string,
    volume: string,
    chapter: string,
    pages: int,
    translatedLanguage: string,
    uploader: string,
    updatedAt: string,
    scanlationGroupId: string,
    scanlationGroup: string)

  datatype MangaUsefullData = MangaUsefullData(
    id: string,
    title: string,
    author: string,
    description: string,
    firstChapterId: string,
    lastChapterId: string,
    lastChapterNb: string,
    originalLanguage: string,
    publicationDemographic: Option<string>,
    status: string,
    year: Option<int>,
    tags: seq<ApiTag>,
    coverId: string,
    coverImg: string,
    chapters: Option<seq<ChapterUsefullData>>,
    nbChapter: int,
    isFavorite: bool,
    lastChapterRead: string)

  /** Go's zero values, which a failed `json.Unmarshal` leaves behind. */
  const ZeroApiManga := ApiManga("", [], "", [], 0, 0, 0)
  const ZeroApiCover := ApiCover("", [], "", [])
  const ZeroApiMangaFeed := ApiMangaFeed("", [], "", [], 0, 0, 0)

  /** The two tag vocabularies have no repeated entry. */
  lemma TagVocabulariesDistinct()
    ensures NoDuplicates(MangaPublic) && |MangaPublic| == 5
    ensures NoDuplicates(MangaStatus) && |MangaStatus| == 4
  {
  }
}
