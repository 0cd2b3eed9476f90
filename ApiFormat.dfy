/**
 * Turning MangaDex answers into the page models: the relationship scans of
 * `Chapter.Format` and `Manga.Format`, `ApiMangaFeed.Format` and the older package's
 * `ApiManga.Format`, `Divide`, `CoverId` and `CoversId`
 * (internal/models/api/api-methods.go and internal/models/api-methods.go).
 */
module ApiFormat {
  import opened Results
  import opened ApiModels

  const ScanlationGroup: string := "scanlation_group"
  const CoverArt: string := "cover_art"
  const Author: string := "author"

  predicate HasType(rels: seq<Relationship>, t: string) {
    exists i :: 0 <= i < |rels| && rels[i].relType == t
  }

  /** `i` is the position of the first relationship of type `t`. */
  predicate IsFirstOfType(rels: seq<Relationship>, t: string, i: int) {
    && 0 <= i < |rels| && rels[i].relType == t
    && forall j :: 0 <= j < i ==> rels[j].relType != t
  }

  /** The position of the first relationship of type `t`, or -1. */
  function FirstOfType(rels: seq<Relationship>, t: string): (r: int)
    ensures -1 <= r < |rels|
    ensures r == -1 <==> !HasType(rels, t)
    ensures r >= 0 ==> IsFirstOfType(rels, t, r)
    decreases |rels|
  {
    if |rels| == 0 then -1
    else if rels[0].relType == t then 0
    else
      var k := FirstOfType(rels[1..], t);
      assert forall i :: 0 < i < |rels| ==> rels[i] == rels[1..][i - 1];
      if k == -1 then -1 else k + 1
  }

  /** There is only one first relationship of a type. */
  lemma FirstOfTypeUnique(rels: seq<Relationship>, t: string, i: int)
    requires IsFirstOfType(rels, t, i)
    ensures FirstOfType(rels, t) == i
  {
  }

  /**
   * The chapter summary `Chapter.Format` builds: the chapter's fields, and the id and
   * name of its first scanlation-group relationship ("" when it has none).
   */
  function ChapterSummary(c: Chapter): (r: ChapterUsefullData)
    ensures r.id == c.id && r.title == c.title && r.volume == c.volume && r.chapter == c.chapter
    ensures r.pages == c.pages && r.translatedLanguage == c.translatedLanguage
    ensures r.uploader == c.uploader && r.updatedAt == c.updatedAt
    ensures !HasType(c.relationships, ScanlationGroup) ==> r.scanlationGroupId == "" && r.scanlationGroup == ""
    ensures forall i :: IsFirstOfType(c.relationships, ScanlationGroup, i) ==>
      r.scanlationGroupId == c.relationships[i].id && r.scanlationGroup == c.relationships[i].name
  {
    var k := FirstOfType(c.relationships, ScanlationGroup);
    assert forall i :: IsFirstOfType(c.relationships, ScanlationGroup, i) ==> i == k by {
      forall i | IsFirstOfType(c.relationships, ScanlationGroup, i) ensures i == k {
        FirstOfTypeUnique(c.relationships, ScanlationGroup, i);
      }
    }
    ChapterUsefullData(
      c.id, c.title, c.volume, c.chapter, c.pages, c.translatedLanguage, c.uploader, c.updatedAt,
      if k == -1 then "" else c.relationships[k].id,
      if k == -1 then "" else c.relationships[k].name)
  }

  /** `Chapter.Format`: scans the relationships and stops at the first scanlation group. */
  method FormatChapter(c: Chapter) returns (r: ChapterUsefullData)
    ensures r == ChapterSummary(c)
  {
    r := ChapterUsefullData(
      c.id, c.title, c.volume, c.chapter, c.pages, c.translatedLanguage, c.uploader, c.updatedAt, "", "");
    var rels := c.relationships;
    var i := 0;
    while i < |rels|
      invariant 0 <= i <= |rels|
      invariant forall j :: 0 <= j < i ==> rels[j].relType != ScanlationGroup
      invariant r == ChapterUsefullData(
        c.id, c.title, c.volume, c.chapter, c.pages, c.translatedLanguage, c.uploader, c.updatedAt, "", "")
    {
      if rels[i].relType == ScanlationGroup {
        r := r.(scanlationGroupId := rels[i].id, scanlationGroup := rels[i].name);
        assert IsFirstOfType(rels, ScanlationGroup, i);
        return;
      }
      i := i + 1;
    }
  }

  /** `ApiMangaFeed.Format`: one summary per chapter, in the feed's order. */
  method FormatFeed(feed: ApiMangaFeed) returns (chapters: seq<ChapterUsefullData>)
    ensures |chapters| == |feed.data|
    ensures forall i :: 0 <= i < |chapters| ==> chapters[i] == ChapterSummary(feed.data[i])
  {
    chapters := [];
    for i := 0 to |feed.data|
      invariant |chapters| == i
      invariant forall j :: 0 <= j < i ==> chapters[j] == ChapterSummary(feed.data[j])
    {
      var chapter := FormatChapter(feed.data[i]);
      ChapterSummariesExtend(chapters, feed.data, chapter);
      chapters := chapters + [chapter];
    }
  }

  lemma ChapterSummariesExtend(done: seq<ChapterUsefullData>, data: seq<Chapter>, next: ChapterUsefullData)
    requires |done| < |data|
    requires forall j :: 0 <= j < |done| ==> done[j] == ChapterSummary(data[j])
    requires next == ChapterSummary(data[|done|])
    ensures forall j :: 0 <= j < |done| + 1 ==> (done + [next])[j] == ChapterSummary(data[j])
  {
    forall j | 0 <= j < |done| + 1 ensures (done + [next])[j] == ChapterSummary(data[j]) {
      if j < |done| {
        assert (done + [next])[j] == done[j];
      }
    }
  }

  /**
   * The manga summary `Manga.Format` builds: the manga's fields, the given first-chapter
   * id and chapter count, the first cover art's id and file name and the first author's
   * name ("" when there is none); no chapters yet, not a favourite, nothing read.
   */
  function MangaSummary(m: Manga, firstChapterId: string, nbChapter: int): (r: MangaUsefullData)
    ensures r.id == m.id && r.title == m.title && r.description == m.description
    ensures r.firstChapterId == firstChapterId && r.nbChapter == nbChapter
    ensures r.lastChapterId == m.latestUploadedChapter && r.lastChapterNb == m.lastChapter
    ensures r.originalLanguage == m.originalLanguage && r.status == m.status
    ensures r.publicationDemographic == m.publicationDemographic && r.year == m.year && r.tags == m.tags
    ensures r.chapters.None? && !r.isFavorite && r.lastChapterRead == ""
  {
    var rels := m.relationships;
    var c := FirstOfType(rels, CoverArt);
    var a := FirstOfType(rels, Author);
    MangaUsefullData(
      m.id, m.title, if a == -1 then "" else rels[a].name, m.description, firstChapterId,
      m.latestUploadedChapter, m.lastChapter, m.originalLanguage, m.publicationDemographic,
      m.status, m.year, m.tags, if c == -1 then "" else rels[c].id,
      if c == -1 then "" else rels[c].fileName, None, nbChapter, false, "")
  }

  /** A summary's cover fields come from the first cover art and its author from the first author. */
  lemma MangaSummaryPicksFirst(m: Manga, firstChapterId: string, nbChapter: int)
    ensures var r := MangaSummary(m, firstChapterId, nbChapter);
      !HasType(m.relationships, CoverArt) ==> r.coverId == "" && r.coverImg == ""
    ensures var r := MangaSummary(m, firstChapterId, nbChapter);
      forall i :: IsFirstOfType(m.relationships, CoverArt, i) ==>
        r.coverId == m.relationships[i].id && r.coverImg == m.relationships[i].fileName
    ensures var r := MangaSummary(m, firstChapterId, nbChapter);
      !HasType(m.relationships, Author) ==> r.author == ""
    ensures var r := MangaSummary(m, firstChapterId, nbChapter);
      forall i :: IsFirstOfType(m.relationships, Author, i) ==> r.author == m.relationships[i].name
  {
    var rels := m.relationships;
    forall i | IsFirstOfType(rels, CoverArt, i) ensures i == FirstOfType(rels, CoverArt) {
      FirstOfTypeUnique(rels, CoverArt, i);
    }
    forall i | IsFirstOfType(rels, Author, i) ensures i == FirstOfType(rels, Author) {
      FirstOfTypeUnique(rels, Author, i);
    }
  }

  /** The loop shared by both `Manga.Format` variants: first cover art and first author. */
  method ScanRelationships(rels: seq<Relationship>) returns (coverId: string, coverImg: string, author: string)
    ensures var c := FirstOfType(rels, CoverArt);
      && coverId == (if c == -1 then "" else rels[c].id)
      && coverImg == (if c == -1 then "" else rels[c].fileName)
    ensures var a := FirstOfType(rels, Author);
      author == (if a == -1 then "" else rels[a].name)
  {
    coverId, coverImg, author := "", "", "";
    var isCover, isAuthor := false, false;
    for i := 0 to |rels|
      invariant var c := FirstOfType(rels, CoverArt);
        && (isCover <==> 0 <= c < i)
        && coverId == (if isCover then rels[c].id else "")
        && coverImg == (if isCover then rels[c].fileName else "")
      invariant var a := FirstOfType(rels, Author);
        && (isAuthor <==> 0 <= a < i)
        && author == (if isAuthor then rels[a].name else "")
    {
      if rels[i].relType == CoverArt && !isCover {
        FirstOfTypeUnique(rels, CoverArt, i);
        coverId := rels[i].id;
        coverImg := rels[i].fileName;
        isCover := true;
      }
      if rels[i].relType == Author && !isAuthor {
        FirstOfTypeUnique(rels, Author, i);
        author := rels[i].name;
        isAuthor := true;
      }
    }
  }

  /**
   * `Manga.Format` of the newer package. `feed` is the answer of the first-chapter request
   * (a zero feed when that request failed): its first chapter and its total are used.
   */
  method FormatManga(m: Manga, feed: ApiMangaFeed) returns (r: MangaUsefullData)
    ensures r == MangaSummary(m, if |feed.data| > 0 then feed.data[0].id else "", feed.total)
  {
    var firstChapterId := "";
    if |feed.data| > 0 {
      firstChapterId := feed.data[0].id;
    }
    var coverId, coverImg, author := ScanRelationships(m.relationships);
    r := MangaUsefullData(
      m.id, m.title, author, m.description, firstChapterId, m.latestUploadedChapter,
      m.lastChapter, m.originalLanguage, m.publicationDemographic, m.status, m.year, m.tags,
      coverId, coverImg, None, feed.total, false, "");
  }

  /**
   * `Manga.Format` of the older package: the feed request is disabled, so the first
   * chapter id is the latest uploaded chapter and the chapter count is 0.
   */
  method LegacyFormatManga(m: Manga) returns (r: MangaUsefullData)
    ensures r == MangaSummary(m, m.latestUploadedChapter, 0)
  {
    var coverId, coverImg, author := ScanRelationships(m.relationships);
    r := MangaUsefullData(
      m.id, m.title, author, m.description, m.latestUploadedChapter, m.latestUploadedChapter,
      m.lastChapter, m.originalLanguage, m.publicationDemographic, m.status, m.year, m.tags,
      coverId, coverImg, None, 0, false, "");
  }

  /** `ApiManga.Format` of the older package: one summary per manga, in order. */
  method LegacyFormatMangas(data: ApiManga) returns (mangas: seq<MangaUsefullData>)
    ensures |mangas| == |data.data|
    ensures forall i :: 0 <= i < |mangas| ==>
      mangas[i] == MangaSummary(data.data[i], data.data[i].latestUploadedChapter, 0)
  {
    mangas := [];
    for i := 0 to |data.data|
      invariant |mangas| == i
      invariant forall j :: 0 <= j < i ==>
        mangas[j] == MangaSummary(data.data[j], data.data[j].latestUploadedChapter, 0)
    {
      var manga := LegacyFormatManga(data.data[i]);
      LegacySummariesExtend(mangas, data.data, manga);
      mangas := mangas + [manga];
    }
  }

  lemma LegacySummariesExtend(done: seq<MangaUsefullData>, data: seq<Manga>, next: MangaUsefullData)
    requires |done| < |data|
    requires forall j :: 0 <= j < |done| ==>
      done[j] == MangaSummary(data[j], data[j].latestUploadedChapter, 0)
    requires next == MangaSummary(data[|done|], data[|done|].latestUploadedChapter, 0)
    ensures forall j :: 0 <= j < |done| + 1 ==>
      (done + [next])[j] == MangaSummary(data[j], data[j].latestUploadedChapter, 0)
  {
    forall j | 0 <= j < |done| + 1
      ensures (done + [next])[j] == MangaSummary(data[j], data[j].latestUploadedChapter, 0)
    {
      if j < |done| {
        assert (done + [next])[j] == done[j];
      }
    }
  }

  /** `ApiCover.Divide`: the covers of a collection, or an error for any other response. */
  method Divide(data: ApiCover) returns (covers: seq<Cover>, err: Option<string>)
    ensures err.None? <==> data.response == "collection"
    ensures err.None? ==> covers == data.data
    ensures err.Some? ==> covers == []
  {
    if data.response == "collection" {
      covers := [];
      for i := 0 to |data.data|
        invariant covers == data.data[..i]
      {
        covers := covers + [data.data[i]];
      }
      assert data.data[..|data.data|] == data.data;
      return covers, None;
    }
    return [], Some("error: data is not a collection");
  }

  /** `ApiSingleManga.CoverId`: the id of the first cover-art relationship, or "". */
  method CoverId(m: Manga) returns (id: string)
    ensures !HasType(m.relationships, CoverArt) ==> id == ""
    ensures forall i :: IsFirstOfType(m.relationships, CoverArt, i) ==> id == m.relationships[i].id
  {
    var rels := m.relationships;
    for i := 0 to |rels|
      invariant forall j :: 0 <= j < i ==> rels[j].relType != CoverArt
    {
      if rels[i].relType == CoverArt {
        forall k | IsFirstOfType(rels, CoverArt, k) ensures k == i {
          FirstOfTypeUnique(rels, CoverArt, k);
          FirstOfTypeUnique(rels, CoverArt, i);
        }
        return rels[i].id;
      }
    }
    return "";
  }

  /** The ids of all relationships of type `t`, in order. */
  function IdsOfType(rels: seq<Relationship>, t: string): (r: seq<string>)
    ensures |r| <= |rels|
    decreases |rels|
  {
    if |rels| == 0 then []
    else IdsOfType(rels[..|rels| - 1], t) + (if rels[|rels| - 1].relType == t then [rels[|rels| - 1].id] else [])
  }

  /** The cover-art ids of every manga, manga by manga. */
  function CoverArtIds(mangas: seq<Manga>): seq<string>
    decreases |mangas|
  {
    if |mangas| == 0 then []
    else CoverArtIds(mangas[..|mangas| - 1]) + IdsOfType(mangas[|mangas| - 1].relationships, CoverArt)
  }

  /**
   * `ApiManga.CoversId`: all cover-art ids, manga by manga and relationship by
   * relationship; an error when their number differs from the number of mangas, in which
   * case the ids are still returned.
   */
  method CoversId(data: ApiManga) returns (ids: seq<string>, err: Option<string>)
    ensures ids == CoverArtIds(data.data)
    ensures err.Some? <==> |ids| != |data.data|
  {
    ids := [];
    for m := 0 to |data.data|
      invariant ids == CoverArtIds(data.data[..m])
    {
      var rels := data.data[m].relationships;
      ghost var before := ids;
      for k := 0 to |rels|
        invariant ids == before + IdsOfType(rels[..k], CoverArt)
      {
        assert rels[..k + 1][..k] == rels[..k];
        if rels[k].relType == CoverArt {
          ids := ids + [rels[k].id];
        }
      }
      assert rels[..|rels|] == rels;
      assert data.data[..m + 1][..m] == data.data[..m];
    }
    assert data.data[..|data.data|] == data.data;
    err := None;
    if |ids| != |data.data| {
      err := Some("apiManga.CoversId: ids and mangas number doesn't match");
    }
  }

  /** A relationship list with exactly one cover art lists that first cover art's id. */
  lemma {:induction false} SingleCoverId(rels: seq<Relationship>)
    requires |IdsOfType(rels, CoverArt)| == 1
    ensures HasType(rels, CoverArt)
    ensures IdsOfType(rels, CoverArt) == [rels[FirstOfType(rels, CoverArt)].id]
    decreases |rels|
  {
    var init := rels[..|rels| - 1];
    var last := rels[|rels| - 1];
    if last.relType == CoverArt {
      assert |IdsOfType(init, CoverArt)| == 0;
      NoIdsNoType(init, CoverArt);
      assert IsFirstOfType(rels, CoverArt, |rels| - 1) by {
        forall j | 0 <= j < |rels| - 1 ensures rels[j].relType != CoverArt {
          assert init[j] == rels[j];
        }
      }
      FirstOfTypeUnique(rels, CoverArt, |rels| - 1);
    } else {
      SingleCoverId(init);
      var k := FirstOfType(init, CoverArt);
      assert IsFirstOfType(rels, CoverArt, k) by {
        forall j | 0 <= j < k ensures rels[j].relType != CoverArt {
          assert init[j] == rels[j];
        }
      }
      FirstOfTypeUnique(rels, CoverArt, k);
    }
  }

  lemma {:induction false} NoIdsNoType(rels: seq<Relationship>, t: string)
    requires |IdsOfType(rels, t)| == 0
    ensures !HasType(rels, t)
    decreases |rels|
  {
    if |rels| > 0 {
      var init := rels[..|rels| - 1];
      NoIdsNoType(init, t);
      assert forall j :: 0 <= j < |init| ==> init[j] == rels[j];
    }
  }

  /**
   * When every manga has exactly one cover art, `CoversId` reports no error and its i-th
   * id is what `CoverId` finds for the i-th manga.
   */
  lemma {:induction false} OneCoverEach(mangas: seq<Manga>)
    requires forall i :: 0 <= i < |mangas| ==> |IdsOfType(mangas[i].relationships, CoverArt)| == 1
    ensures |CoverArtIds(mangas)| == |mangas|
    ensures forall i :: 0 <= i < |mangas| ==> HasType(mangas[i].relationships, CoverArt)
    ensures forall i, k :: 0 <= i < |mangas| && IsFirstOfType(mangas[i].relationships, CoverArt, k) ==>
      CoverArtIds(mangas)[i] == mangas[i].relationships[k].id
    decreases |mangas|
  {
    if |mangas| > 0 {
      var init := mangas[..|mangas| - 1];
      var last := mangas[|mangas| - 1];
      OneCoverEach(init);
      SingleCoverId(last.relationships);
      forall i, k | 0 <= i < |mangas| && IsFirstOfType(mangas[i].relationships, CoverArt, k)
        ensures CoverArtIds(mangas)[i] == mangas[i].relationships[k].id
      {
        FirstOfTypeUnique(mangas[i].relationships, CoverArt, k);
        if i < |mangas| - 1 {
          assert init[i] == mangas[i];
        }
      }
      forall i | 0 <= i < |mangas| ensures HasType(mangas[i].relationships, CoverArt) {
        if i < |mangas| - 1 {
          assert init[i] == mangas[i];
        }
      }
    }
  }
}
