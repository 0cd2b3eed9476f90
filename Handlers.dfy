/**
 * The arithmetic and list logic of the page handlers in controllers/handlers.go: query
 * normalisation and pagination, the window of chapters fetched around the one being
 * read and its previous/next neighbours, and the favourites of a user.
 */
module Handlers {
  import opened Results
  import opened Strconv
  import opened ApiModels
  import opened Requests

  const StatusOK := 200
  const StatusNotFound := 404
  const StatusConflict := 409

  // ---------------------------------------------------------------------------
  // Query normalisation and pagination
  // ---------------------------------------------------------------------------

  /** The `order` query parameter: anything but "asc" (absent included) means "desc". */
  function NormalizeOrder(order: Option<string>): (r: string)
    ensures r == "asc" || r == "desc"
    ensures r == "asc" <==> order == Some("asc")
  {
    var o := if order.Some? then order.value else "desc";
    if o != "asc" && o != "desc" then "desc" else o
  }

  /**
   * The `pag` query parameter: an absent, unparsable or non-positive page is page 1;
   * any other page is the number written.
   */
  function NormalizePage(pag: Option<string>): (r: int)
    ensures r >= 1
    ensures pag.Some? && Atoi(pag.value).Some? && Atoi(pag.value).value >= 1 ==> r == Atoi(pag.value).value
    ensures pag.None? || Atoi(pag.value).None? || Atoi(pag.value).value < 1 ==> r == 1
  {
    var s := if pag.Some? then pag.value else "1";
    assert Atoi("1") == Some(1) by {
      assert AllDigits("1");
      assert DigitsValue("1") == DigitsValue("") * 10 + DigitValue('1');
    }
    var p := Atoi(s);
    if p.None? then 1 else if p.value < 1 then 1 else p.value
  }

  /** The offset of the first item of a page of `size` items. */
  function PageOffset(pag: int, size: int): (r: int)
    ensures pag >= 1 && size >= 0 ==> r >= 0
    ensures pag == 1 ==> r == 0
  {
    (pag - 1) * size
  }

  /** Pages and offsets correspond one to one: a page's offset is a multiple of the size, and gives the page back. */
  lemma PageOffsetRoundTrip(pag: int, size: int)
    requires pag >= 1 && size > 0
    ensures PageOffset(pag, size) >= 0
    ensures PageOffset(pag, size) % size == 0
    ensures PageOffset(pag, size) / size + 1 == pag
  {
    DivUnique(PageOffset(pag, size), size, pag - 1, 0);
  }

  /** The number of pages of `size` items needed for `total` items (Go's truncating `/` and `%`). */
  function PageCount(total: int, size: int): (r: int)
    requires size > 0
    ensures total >= 0 ==> r >= 0 && total <= r * size && (r == 0 || (r - 1) * size < total)
    ensures total >= 0 ==> (r == 0 <==> total == 0)
    ensures total < 0 ==> r <= 0
  {
    var q := Quot(total, size);
    if Rem(total, size) > 0 then q + 1 else q
  }

  /**
   * Exactly the pages 1..PageCount hold items: every listed page starts before the end
   * of the list, and every later page starts at or past it.
   */
  lemma ListedPagesHoldItems(total: int, size: int, pag: int)
    requires size > 0 && pag >= 1
    ensures pag <= PageCount(total, size) ==> 0 <= PageOffset(pag, size) < total
    ensures pag > PageCount(total, size) && total >= 0 ==> PageOffset(pag, size) >= total
  {
    var r := PageCount(total, size);
    if pag <= r {
      assert (pag - 1) * size <= (r - 1) * size;
    } else if total >= 0 {
      assert (pag - 1) * size >= r * size;
    }
  }

  /** The `pages` list of the manga page: 1, 2, …, pageMax (empty when pageMax <= 0). */
  method PageNumbers(pageMax: int) returns (pages: seq<int>)
    ensures |pages| == if pageMax > 0 then pageMax else 0
    ensures forall i :: 0 <= i < |pages| ==> pages[i] == i + 1
  {
    pages := [];
    var i := 0;
    while i < pageMax
      invariant 0 <= i && (pageMax > 0 ==> i <= pageMax) && (pageMax <= 0 ==> i == 0)
      invariant |pages| == i
      invariant forall j :: 0 <= j < i ==> pages[j] == j + 1
    {
      pages := pages + [i + 1];
      i := i + 1;
    }
  }

  /**
   * The request behind a category page: the mangas carrying the tag, by rating, 18 per
   * page. It is never one of the two cached home-page requests.
   */
  function CategoryRequest(tagId: string, order: Option<string>, pag: Option<string>): (r: MangaRequest)
    ensures r.includedTags == Some([tagId]) && r.orderType == "rating"
    ensures r.orderValue == NormalizeOrder(order)
    ensures r.limit == 18 && r.offset == PageOffset(NormalizePage(pag), 18) && r.offset >= 0
    ensures !IsSpecial(r)
  {
    MangaRequest("rating", NormalizeOrder(order), Some([tagId]), None, "", "", "", None, None, 18,
                 PageOffset(NormalizePage(pag), 18))
  }

  // ---------------------------------------------------------------------------
  // The chapter page: window and neighbours
  // ---------------------------------------------------------------------------

  /** The `offset` path parameter: unparsable means 0. */
  function ParseOffset(s: string): (r: int)
    ensures Atoi(s).Some? ==> r == Atoi(s).value
    ensures Atoi(s).None? ==> r == 0
  {
    var p := Atoi(s);
    if p.Some? then p.value else 0
  }

  /** The feed window fetched around the chapter at `offset`, and the chapter's index in it. */
  datatype Window = Window(reqOffset: int, limit: int, currentInd: int)

  function ChapterWindow(offset: int): (w: Window)
    ensures w.reqOffset >= 0
    ensures w.reqOffset + w.currentInd == offset
    ensures w.reqOffset + w.limit == offset + 5
    ensures w.reqOffset == 0 || w.currentInd == 5
    ensures offset >= 0 ==> 0 <= w.currentInd <= 5 && w.currentInd < w.limit <= 10
  {
    var reqOffset := offset - 5;
    if reqOffset < 0 then Window(0, 10 + reqOffset, offset - 0)
    else Window(reqOffset, 10, offset - reqOffset)
  }

  /** The index of the first chapter numbered `nb`, or |chapters| when there is none. */
  function FirstNumbered(chapters: seq<ChapterUsefullData>, nb: string): (i: int)
    ensures 0 <= i <= |chapters|
    ensures i < |chapters| ==> chapters[i].chapter == nb
    ensures forall j :: 0 <= j < i ==> chapters[j].chapter != nb
    decreases |chapters|
  {
    if chapters == [] then 0
    else if chapters[0].chapter == nb then 0
    else 1 + FirstNumbered(chapters[1..], nb)
  }

  /** The index of the last chapter numbered `nb`, or -1 when there is none. */
  function LastNumbered(chapters: seq<ChapterUsefullData>, nb: string): (i: int)
    ensures -1 <= i < |chapters|
    ensures i >= 0 ==> chapters[i].chapter == nb
    ensures forall j :: i < j < |chapters| ==> chapters[j].chapter != nb
    decreases |chapters|
  {
    if chapters == [] then -1
    else if chapters[|chapters| - 1].chapter == nb then |chapters| - 1
    else LastNumbered(chapters[..|chapters| - 1], nb)
  }

  /** The neighbours of the chapter being read and whether each gets a link. */
  datatype Nav = Nav(previous: int, next: int, isPrevious: bool, isNext: bool)

  /**
   * The previous entry is the one just before the first entry with the current chapter
   * number, the next one just after the last such entry; there is a previous link when
   * that entry is in the window, and a next link when its position is below the feed total.
   */
  function Neighbours(chapters: seq<ChapterUsefullData>, offset: int, currentInd: int, total: int): (n: Nav)
    requires 0 <= currentInd < |chapters|
    ensures -1 <= n.previous < currentInd < n.next <= |chapters|
    ensures chapters[n.previous + 1].chapter == chapters[currentInd].chapter
    ensures forall j :: 0 <= j <= n.previous ==> chapters[j].chapter != chapters[currentInd].chapter
    ensures chapters[n.next - 1].chapter == chapters[currentInd].chapter
    ensures forall j :: n.next <= j < |chapters| ==> chapters[j].chapter != chapters[currentInd].chapter
    ensures n.isPrevious <==> n.previous >= 0
    ensures n.isNext <==> offset + (n.next - currentInd) < total
  {
    var nb := chapters[currentInd].chapter;
    var previous := FirstNumbered(chapters, nb) - 1;
    var next := LastNumbered(chapters, nb) + 1;
    Nav(previous, next, previous >= 0, !(offset + (next - currentInd) >= total))
  }

  /**
   * The two searches of the chapter page. `None` stands for the panic of
   * `chapters[currentInd]` when the index is outside the fetched feed.
   */
  method ChapterNeighbours(chapters: seq<ChapterUsefullData>, offset: int, currentInd: int, total: int)
      returns (nav: Option<Nav>)
    ensures nav.None? <==> !(0 <= currentInd < |chapters|)
    ensures nav.Some? ==> nav.value == Neighbours(chapters, offset, currentInd, total)
  {
    if !(0 <= currentInd < |chapters|) {
      return None;
    }
    var nb := chapters[currentInd].chapter;
    var previous, next := 0, 0;
    var i := 0;
    while i < |chapters|
      invariant 0 <= i <= currentInd
      invariant forall j :: 0 <= j < i ==> chapters[j].chapter != nb
    {
      if chapters[i].chapter == nb {
        previous := i - 1;
        break;
      }
      i := i + 1;
    }
    assert previous == FirstNumbered(chapters, nb) - 1;
    var k := |chapters| - 1;
    while k >= 0
      invariant currentInd <= k < |chapters|
      invariant forall j :: k < j < |chapters| ==> chapters[j].chapter != nb
    {
      if chapters[k].chapter == nb {
        next := k + 1;
        break;
      }
      k := k - 1;
    }
    assert next == LastNumbered(chapters, nb) + 1;
    var isPrevious, isNext := true, true;
    if previous < 0 {
      isPrevious := false;
    }
    if offset + (next - currentInd) >= total {
      isNext := false;
    }
    return Some(Nav(previous, next, isPrevious, isNext));
  }

  /**
   * The links point at the linked entries' positions in the whole feed: the offset in a
   * link is the window start plus the entry's index in the window.
   */
  lemma LinkOffsetsAreAbsolute(chapters: seq<ChapterUsefullData>, offset: int, total: int)
    requires 0 <= ChapterWindow(offset).currentInd < |chapters|
    ensures var w := ChapterWindow(offset);
      var n := Neighbours(chapters, offset, w.currentInd, total);
      offset - (w.currentInd - n.previous) == w.reqOffset + n.previous &&
      offset + (n.next - w.currentInd) == w.reqOffset + n.next
  {
  }

  /** A chapter entry with only its number set. */
  function Numbered(nb: string): ChapterUsefullData {
    ChapterUsefullData("", "", "", nb, 0, "", "", "", "", "")
  }

  /**
   * As written, the next link indexes `chapters[next]` whenever its position is below the
   * total, even when `next` is one past the fetched window: reading the first chapter when
   * the window holds five uploads of it and the feed has a sixth entry.
   */
  lemma NextLinkOutsideWindow()
    ensures var chapters := [Numbered("1"), Numbered("1"), Numbered("1"), Numbered("1"), Numbered("1")];
      var w := ChapterWindow(0);
      var n := Neighbours(chapters, 0, w.currentInd, 6);
      |chapters| == w.limit && n.isNext && n.next == |chapters|
  {
    var chapters := [Numbered("1"), Numbered("1"), Numbered("1"), Numbered("1"), Numbered("1")];
    assert LastNumbered(chapters, "1") == 4;
  }

  /** The neighbours with a next link only to an entry present in the window. */
  function SafeNeighbours(chapters: seq<ChapterUsefullData>, offset: int, currentInd: int, total: int): (n: Nav)
    requires 0 <= currentInd < |chapters|
    ensures n.isPrevious ==>
      0 <= n.previous < |chapters| && chapters[n.previous].chapter != chapters[currentInd].chapter
    ensures n.isNext ==>
      0 <= n.next < |chapters| && chapters[n.next].chapter != chapters[currentInd].chapter
    ensures n.isNext <==> Neighbours(chapters, offset, currentInd, total).isNext && n.next < |chapters|
    ensures n.(isNext := Neighbours(chapters, offset, currentInd, total).isNext) ==
      Neighbours(chapters, offset, currentInd, total)
  {
    var n := Neighbours(chapters, offset, currentInd, total);
    n.(isNext := n.isNext && n.next < |chapters|)
  }

  // ---------------------------------------------------------------------------
  // Favourites and banner
  // ---------------------------------------------------------------------------

  /** A manga a user follows, and the last chapter they read in it. */
  datatype MangaUser = MangaUser(id: string, lastChapterRead: string)

  predicate HasFavorite(favs: seq<MangaUser>, id: string) {
    exists i :: 0 <= i < |favs| && favs[i].id == id
  }

  predicate UniqueIds(favs: seq<MangaUser>) {
    forall i, j :: 0 <= i < j < |favs| ==> favs[i].id != favs[j].id
  }

  /** The index of the first favourite with this id, or -1. */
  function FavoriteIndex(favs: seq<MangaUser>, id: string): (k: int)
    ensures -1 <= k < |favs|
    ensures k == -1 <==> !HasFavorite(favs, id)
    ensures k >= 0 ==> favs[k].id == id
    ensures forall j :: 0 <= j < k ==> favs[j].id != id
    decreases |favs|
  {
    if favs == [] then -1
    else if favs[0].id == id then 0
    else
      var k := FavoriteIndex(favs[1..], id);
      if k < 0 then -1 else k + 1
  }

  /** An HTTP status and the favourites list it leaves. */
  datatype FavoritesReply = FavoritesReply(code: int, favorites: seq<MangaUser>)

  /** `favoriteHandlerPost`: an empty id is 404, a present one is a 409 conflict, a new one is appended. */
  function FavoriteAdded(favs: seq<MangaUser>, id: string): (r: FavoritesReply)
    ensures r.code == StatusOK <==> id != "" && !HasFavorite(favs, id)
    ensures r.code == StatusConflict <==> id != "" && HasFavorite(favs, id)
    ensures id == "" ==> r.code == StatusNotFound
    ensures r.code != StatusOK ==> r.favorites == favs
    ensures r.code == StatusOK ==> r.favorites == favs + [MangaUser(id, "")]
  {
    if id == "" then FavoritesReply(StatusNotFound, favs)
    else if FavoriteIndex(favs, id) >= 0 then FavoritesReply(StatusConflict, favs)
    else FavoritesReply(StatusOK, favs + [MangaUser(id, "")])
  }

  /** `favoriteHandlerDelete`: the first favourite with the id is cut out, the others keep their order. */
  function FavoriteDeleted(favs: seq<MangaUser>, id: string): (r: FavoritesReply)
    ensures r.code == StatusOK <==> id != "" && HasFavorite(favs, id)
    ensures r.code != StatusOK ==> r.code == StatusNotFound && r.favorites == favs
    ensures r.code == StatusOK ==>
      var k := FavoriteIndex(favs, id);
      |r.favorites| == |favs| - 1 &&
      (forall j :: 0 <= j < k ==> r.favorites[j] == favs[j]) &&
      (forall j :: k <= j < |r.favorites| ==> r.favorites[j] == favs[j + 1])
  {
    if id == "" then FavoritesReply(StatusNotFound, favs)
    else
      var k := FavoriteIndex(favs, id);
      if k < 0 then FavoritesReply(StatusNotFound, favs)
      else FavoritesReply(StatusOK, favs[..k] + favs[k + 1..])
  }

  /** An HTTP status and the banner it leaves. */
  datatype BannerReply = BannerReply(code: int, banner: MangaUser)

  /** `bannerHandlerPut`: the banner becomes a favourite, with that favourite's last chapter read. */
  function BannerSet(favs: seq<MangaUser>, banner: MangaUser, id: string): (r: BannerReply)
    ensures r.code == StatusOK <==> id != "" && HasFavorite(favs, id)
    ensures r.code != StatusOK ==> r.code == StatusNotFound && r.banner == banner
    ensures r.code == StatusOK ==>
      r.banner.id == id && r.banner.lastChapterRead == favs[FavoriteIndex(favs, id)].lastChapterRead
  {
    if id == "" then BannerReply(StatusNotFound, banner)
    else
      var k := FavoriteIndex(favs, id);
      if k < 0 then BannerReply(StatusNotFound, banner)
      else BannerReply(StatusOK, MangaUser(id, favs[k].lastChapterRead))
  }

  /** Deleting a favourite just added gives back the list as it was. */
  lemma DeleteUndoesAdd(favs: seq<MangaUser>, id: string)
    requires FavoriteAdded(favs, id).code == StatusOK
    ensures FavoriteDeleted(FavoriteAdded(favs, id).favorites, id) == FavoritesReply(StatusOK, favs)
  {
    var added := favs + [MangaUser(id, "")];
    assert FavoriteIndex(added, id) == |favs|;
    assert added[..|favs|] + added[|favs| + 1..] == favs;
  }

  /** Adding twice is adding once: the second add is a conflict and changes nothing. */
  lemma AddIsIdempotent(favs: seq<MangaUser>, id: string)
    requires id != ""
    ensures var once := FavoriteAdded(favs, id).favorites;
      FavoriteAdded(once, id) == FavoritesReply(StatusConflict, once)
  {
    var once := FavoriteAdded(favs, id).favorites;
    if !HasFavorite(favs, id) {
      assert once[|favs|].id == id;
    }
  }

  /** Adding and deleting keep favourite ids unique, and a deleted id is then gone. */
  lemma FavoritesStayUnique(favs: seq<MangaUser>, id: string)
    requires UniqueIds(favs)
    ensures UniqueIds(FavoriteAdded(favs, id).favorites)
    ensures UniqueIds(FavoriteDeleted(favs, id).favorites)
    ensures id != "" ==> !HasFavorite(FavoriteDeleted(favs, id).favorites, id)
  {
    var d := FavoriteDeleted(favs, id);
    if d.code == StatusOK {
      var k := FavoriteIndex(favs, id);
      forall i, j | 0 <= i < j < |d.favorites|
        ensures d.favorites[i].id != d.favorites[j].id
      {
        var i' := if i < k then i else i + 1;
        var j' := if j < k then j else j + 1;
        assert d.favorites[i] == favs[i'] && d.favorites[j] == favs[j'];
      }
      forall j | 0 <= j < |d.favorites|
        ensures d.favorites[j].id != id
      {
        var j' := if j < k then j else j + 1;
        assert d.favorites[j] == favs[j'];
      }
    }
  }

  /** A user's stored favourites and banner, as the three handlers update them. */
  class Account {
    var favorites: seq<MangaUser>
    var banner: MangaUser

    constructor(favorites0: seq<MangaUser>, banner0: MangaUser)
      ensures favorites == favorites0 && banner == banner0
    {
      favorites := favorites0;
      banner := banner0;
    }

    /** `favoriteHandlerPost` once the session and the user are found. */
    method AddFavorite(mangaId: string) returns (code: int)
      modifies this
      ensures FavoritesReply(code, favorites) == FavoriteAdded(old(favorites), mangaId)
      ensures banner == old(banner)
    {
      if mangaId == "" {
        return StatusNotFound;
      }
      for i := 0 to |favorites|
        invariant favorites == old(favorites)
        invariant forall j :: 0 <= j < i ==> favorites[j].id != mangaId
      {
        if mangaId == favorites[i].id {
          return StatusConflict;
        }
      }
      favorites := favorites + [MangaUser(mangaId, "")];
      return StatusOK;
    }

    /** `favoriteHandlerDelete` once the session and the user are found. */
    method DeleteFavorite(mangaId: string) returns (code: int)
      modifies this
      ensures FavoritesReply(code, favorites) == FavoriteDeleted(old(favorites), mangaId)
      ensures banner == old(banner)
    {
      if mangaId == "" {
        return StatusNotFound;
      }
      for i := 0 to |favorites|
        invariant favorites == old(favorites)
        invariant forall j :: 0 <= j < i ==> favorites[j].id != mangaId
      {
        if mangaId == favorites[i].id {
          favorites := favorites[..i] + favorites[i + 1..];
          return StatusOK;
        }
      }
      return StatusNotFound;
    }

    /** `bannerHandlerPut` once the session and the user are found. */
    method SetBanner(mangaId: string) returns (code: int)
      modifies this
      ensures BannerReply(code, banner) == BannerSet(old(favorites), old(banner), mangaId)
      ensures favorites == old(favorites)
    {
      if mangaId == "" {
        return StatusNotFound;
      }
      for i := 0 to |favorites|
        invariant favorites == old(favorites) && banner == old(banner)
        invariant forall j :: 0 <= j < i ==> favorites[j].id != mangaId
      {
        if mangaId == favorites[i].id {
          banner := MangaUser(mangaId, favorites[i].lastChapterRead);
          return StatusOK;
        }
      }
      return StatusNotFound;
    }
  }
}
