/**
 * The status index status.json and the three functions of internal/api/cache.go that
 * work on it: `checkStatus` (is an item cached?), `updateCacheStatus` (mark it) and
 * `deleteCacheStatus` (unmark it). The file is given as its decoded content: `None` when
 * it is missing or empty, which Go reads as the zero document.
 */
module StatusIndex {
  import opened Results
  import opened ApiModels
  import opened CacheModels

  /** The singleton flag of a category (false for keyed categories). */
  function Flag(doc: StatusCache, c: Category): bool {
    match c
    case LastUploaded => doc.lastUploaded
    case Popular => doc.popular
    case Tags => doc.tags
    case _ => false
  }

  /** The id list of a keyed category (empty for singletons). */
  function Members(doc: StatusCache, c: Category): seq<string> {
    match c
    case Categories => doc.categories
    case Mangas => doc.mangas
    case Covers => doc.covers
    case MangaFeeds => doc.mangaFeeds
    case ChaptersScan => doc.chaptersScan
    case MangaStats => doc.mangaStats
    case _ => []
  }

  /** The document with the flag of singleton `c` set to `b`. */
  function WithFlag(doc: StatusCache, c: Category, b: bool): (r: StatusCache)
    requires IsSingleton(c)
    ensures Flag(r, c) == b
    ensures forall c2 :: c2 != c ==> Flag(r, c2) == Flag(doc, c2)
    ensures forall c2 :: Members(r, c2) == Members(doc, c2)
  {
    match c
    case LastUploaded => doc.(lastUploaded := b)
    case Popular => doc.(popular := b)
    case Tags => doc.(tags := b)
  }

  /** The document with the id list of keyed category `c` replaced by `ids`. */
  function WithMembers(doc: StatusCache, c: Category, ids: seq<string>): (r: StatusCache)
    requires !IsSingleton(c)
    ensures Members(r, c) == ids
    ensures forall c2 :: c2 != c ==> Members(r, c2) == Members(doc, c2)
    ensures forall c2 :: Flag(r, c2) == Flag(doc, c2)
  {
    match c
    case Categories => doc.(categories := ids)
    case Mangas => doc.(mangas := ids)
    case Covers => doc.(covers := ids)
    case MangaFeeds => doc.(mangaFeeds := ids)
    case ChaptersScan => doc.(chaptersScan := ids)
    case MangaStats => doc.(mangaStats := ids)
  }

  /** The document Go works on: the decoded file, or the zero document. */
  function Doc(file: Option<StatusCache>): StatusCache {
    if file.Some? then file.value else ZeroStatus
  }

  /**
   * `checkStatus`: a missing or empty file is a miss; singletons answer with their flag,
   * keyed categories with list membership; covers has no case in the switch and is
   * always a miss.
   */
  function CheckStatus(file: Option<StatusCache>, c: Category, id: string): (r: bool)
    ensures file.None? ==> !r
    ensures c == Covers ==> !r
    ensures file.Some? && IsSingleton(c) ==> (r <==> Flag(file.value, c))
    ensures file.Some? && !IsSingleton(c) && c != Covers ==> (r <==> id in Members(file.value, c))
  {
    if file.None? then false
    else if IsSingleton(c) then Flag(file.value, c)
    else if c == Covers then false
    else id in Members(file.value, c)
  }

  /** `slices.Index`: the first position of `id`, or -1. */
  function IndexOf(ids: seq<string>, id: string): (r: int)
    ensures -1 <= r < |ids|
    ensures r == -1 <==> id !in ids
    ensures r >= 0 ==> ids[r] == id && id !in ids[..r]
    decreases |ids|
  {
    if |ids| == 0 then -1
    else if ids[0] == id then 0
    else
      var t := IndexOf(ids[1..], id);
      assert forall i :: 0 < i < |ids| ==> ids[i] == ids[1..][i - 1];
      if t == -1 then -1
      else
        assert ids[..t + 1] == [ids[0]] + ids[1..][..t];
        t + 1
  }

  /** The id list without the first occurrence of `id` (unchanged when absent). */
  function Dropped(ids: seq<string>, id: string): (r: seq<string>)
    ensures id !in ids ==> r == ids
    ensures id in ids ==> |r| == |ids| - 1 && multiset(r) == multiset(ids) - multiset{id}
  {
    var k := IndexOf(ids, id);
    if k == -1 then ids
    else
      assert ids == ids[..k] + [id] + ids[k + 1..];
      ids[..k] + ids[k + 1..]
  }

  /**
   * Dropping keeps the other entries in order: those before the first occurrence stay in
   * place and those after it move down by one.
   */
  lemma DroppedKeepsOrder(ids: seq<string>, id: string)
    requires id in ids
    ensures var k := IndexOf(ids, id);
      Dropped(ids, id)[..k] == ids[..k] && Dropped(ids, id)[k..] == ids[k + 1..]
  {
    var k := IndexOf(ids, id);
    var before, after := ids[..k], ids[k + 1..];
    assert Dropped(ids, id) == before + after;
    assert (before + after)[..k] == before;
    assert (before + after)[k..] == after;
  }

  /**
   * The document `updateCacheStatus` leaves: a singleton's flag set; a keyed id appended
   * unless already listed (then Go returns before writing, so the file is as it was);
   * covers untouched, though a missing file is still written as the zero document.
   */
  function MarkedStatus(file: Option<StatusCache>, c: Category, id: string): (r: StatusCache)
    ensures c == Covers ==> r == Doc(file)
    ensures IsSingleton(c) ==> Flag(r, c)
    ensures !IsSingleton(c) && c != Covers ==>
      id in Members(r, c) && Members(Doc(file), c) <= Members(r, c)
  {
    var doc := Doc(file);
    if IsSingleton(c) then WithFlag(doc, c, true)
    else if c == Covers then doc
    else if id in Members(doc, c) then doc
    else WithMembers(doc, c, Members(doc, c) + [id])
  }

  /**
   * The document `deleteCacheStatus` leaves: a singleton's flag cleared; the first
   * occurrence of a keyed id removed; covers untouched.
   */
  function UnmarkedStatus(file: Option<StatusCache>, c: Category, id: string): (r: StatusCache)
    ensures c == Covers ==> r == Doc(file)
    ensures IsSingleton(c) ==> !Flag(r, c)
    ensures !IsSingleton(c) && c != Covers ==>
      multiset(Members(r, c)) == multiset(Members(Doc(file), c)) - multiset{id}
  {
    var doc := Doc(file);
    if IsSingleton(c) then WithFlag(doc, c, false)
    else if c == Covers then doc
    else WithMembers(doc, c, Dropped(Members(doc, c), id))
  }

  /** No keyed list of the document repeats an id. */
  predicate WellFormed(doc: StatusCache) {
    && NoDuplicates(doc.categories) && NoDuplicates(doc.mangas) && NoDuplicates(doc.covers)
    && NoDuplicates(doc.mangaFeeds) && NoDuplicates(doc.chaptersScan) && NoDuplicates(doc.mangaStats)
  }

  lemma WellFormedMembers(doc: StatusCache, c: Category)
    requires WellFormed(doc)
    ensures NoDuplicates(Members(doc, c))
  {
  }

  lemma WithMembersWellFormed(doc: StatusCache, c: Category, ids: seq<string>)
    requires !IsSingleton(c) && WellFormed(doc) && NoDuplicates(ids)
    ensures WellFormed(WithMembers(doc, c, ids))
  {
  }

  lemma WithMembersRestore(doc: StatusCache, c: Category, ids: seq<string>)
    requires !IsSingleton(c)
    ensures WithMembers(WithMembers(doc, c, ids), c, Members(doc, c)) == doc
  {
  }

  /** After marking, the item is reported cached, for every category but covers. */
  lemma MarkThenCheck(file: Option<StatusCache>, c: Category, id: string)
    requires c != Covers
    ensures CheckStatus(Some(MarkedStatus(file, c, id)), c, id)
  {
  }

  /** A missing status file answers like the zero document. */
  lemma CheckStatusDoc(file: Option<StatusCache>, c: Category, id: string)
    ensures CheckStatus(file, c, id) == CheckStatus(Some(Doc(file)), c, id)
  {
    if file.None? && c != Covers {
      if IsSingleton(c) {
        assert Flag(ZeroStatus, c) == false;
      } else {
        assert Members(ZeroStatus, c) == [];
      }
    }
  }

  /** Two documents agreeing on a category's flag and on an id's membership agree on its status. */
  lemma CheckStatusAgree(doc: StatusCache, doc2: StatusCache, c: Category, id: string)
    requires Flag(doc2, c) == Flag(doc, c)
    requires id in Members(doc2, c) <==> id in Members(doc, c)
    ensures CheckStatus(Some(doc2), c, id) == CheckStatus(Some(doc), c, id)
  {
  }

  /** Marking touches only the answer for the marked (category, id). */
  lemma MarkFrame(file: Option<StatusCache>, c: Category, id: string, c2: Category, id2: string)
    requires c2 != c || (id2 != id && !IsSingleton(c))
    ensures CheckStatus(Some(MarkedStatus(file, c, id)), c2, id2) == CheckStatus(file, c2, id2)
  {
    var doc := Doc(file);
    var marked := MarkedStatus(file, c, id);
    CheckStatusDoc(file, c2, id2);
    assert Flag(marked, c2) == Flag(doc, c2);
    if !IsSingleton(c) && c != Covers && id !in Members(doc, c) && c2 == c {
      assert Members(marked, c) == Members(doc, c) + [id];
    }
    assert id2 in Members(marked, c2) <==> id2 in Members(doc, c2);
    CheckStatusAgree(doc, marked, c2, id2);
  }

  /** Marking twice writes what marking once wrote. */
  lemma MarkIdempotent(file: Option<StatusCache>, c: Category, id: string)
    ensures MarkedStatus(Some(MarkedStatus(file, c, id)), c, id) == MarkedStatus(file, c, id)
  {
    var doc := Doc(file);
    if IsSingleton(c) {
      var once := WithFlag(doc, c, true);
      assert WithFlag(once, c, true) == once;
    } else if c != Covers && id !in Members(doc, c) {
      assert id in Members(doc, c) + [id];
    }
  }

  /** Marking a new keyed id and then unmarking it gives back the document. */
  lemma UnmarkUndoesMark(doc: StatusCache, c: Category, id: string)
    requires !IsSingleton(c) && c != Covers
    requires id !in Members(doc, c)
    ensures UnmarkedStatus(Some(MarkedStatus(Some(doc), c, id)), c, id) == doc
  {
    var ids := Members(doc, c);
    assert IndexOf(ids + [id], id) == |ids| by {
      assert (ids + [id])[..|ids|] == ids;
    }
    assert Dropped(ids + [id], id) == ids by {
      assert (ids + [id])[..|ids|] == ids;
    }
    WithMembersRestore(doc, c, ids + [id]);
  }

  lemma DroppedKeepsNoDuplicates(ids: seq<string>, id: string)
    requires NoDuplicates(ids)
    ensures NoDuplicates(Dropped(ids, id))
    ensures id !in Dropped(ids, id)
  {
    var k := IndexOf(ids, id);
    if k != -1 {
      assert Dropped(ids, id) == ids[..k] + ids[k + 1..];
      CutKeepsNoDuplicates(ids, k);
    }
  }

  /** Cutting position `k` out of a repeat-free list keeps it repeat-free and loses its element. */
  lemma CutKeepsNoDuplicates(ids: seq<string>, k: int)
    requires NoDuplicates(ids) && 0 <= k < |ids|
    ensures NoDuplicates(ids[..k] + ids[k + 1..])
    ensures ids[k] !in ids[..k] + ids[k + 1..]
  {
    var r := ids[..k] + ids[k + 1..];
    forall i | 0 <= i < |r| ensures r[i] == ids[if i < k then i else i + 1] {
      if i < k {
        assert r[i] == ids[..k][i];
      } else {
        assert r[i] == ids[k + 1..][i - k];
      }
    }
    forall i, j | 0 <= i < j < |r| ensures r[i] != r[j] {
      assert r[i] == ids[if i < k then i else i + 1];
      assert r[j] == ids[if j < k then j else j + 1];
    }
    forall i | 0 <= i < |r| ensures r[i] != ids[k] {
      assert r[i] == ids[if i < k then i else i + 1];
    }
  }

  /** Marking keeps every id list free of repeats. */
  lemma MarkKeepsWellFormed(file: Option<StatusCache>, c: Category, id: string)
    requires file.Some? ==> WellFormed(file.value)
    ensures WellFormed(MarkedStatus(file, c, id))
  {
    var doc := Doc(file);
    if !IsSingleton(c) && c != Covers && id !in Members(doc, c) {
      var old_ids := Members(doc, c);
      var ids := old_ids + [id];
      WellFormedMembers(doc, c);
      forall i, j | 0 <= i < j < |ids| ensures ids[i] != ids[j] {
        if j == |ids| - 1 {
          assert ids[i] == old_ids[i];
        } else {
          assert ids[i] == old_ids[i] && ids[j] == old_ids[j];
        }
      }
      WithMembersWellFormed(doc, c, ids);
    }
  }

  /** Unmarking keeps every id list free of repeats. */
  lemma UnmarkKeepsWellFormed(file: Option<StatusCache>, c: Category, id: string)
    requires file.Some? ==> WellFormed(file.value)
    ensures WellFormed(UnmarkedStatus(file, c, id))
  {
    var doc := Doc(file);
    if !IsSingleton(c) && c != Covers {
      WellFormedMembers(doc, c);
      DroppedKeepsNoDuplicates(Members(doc, c), id);
      WithMembersWellFormed(doc, c, Dropped(Members(doc, c), id));
    }
  }

  /** After unmarking, a well-formed index no longer reports the item. */
  lemma UnmarkThenCheck(file: Option<StatusCache>, c: Category, id: string)
    requires file.Some? ==> WellFormed(file.value)
    ensures !CheckStatus(Some(UnmarkedStatus(file, c, id)), c, id)
  {
    var doc := Doc(file);
    if !IsSingleton(c) && c != Covers {
      WellFormedMembers(doc, c);
      DroppedKeepsNoDuplicates(Members(doc, c), id);
    }
  }

  /** Unmarking leaves every other (category, id) answering as before. */
  lemma UnmarkFrame(file: Option<StatusCache>, c: Category, id: string, c2: Category, id2: string)
    requires c2 != c || (id2 != id && !IsSingleton(c))
    ensures CheckStatus(Some(UnmarkedStatus(file, c, id)), c2, id2) == CheckStatus(file, c2, id2)
  {
    var doc := Doc(file);
    var unmarked := UnmarkedStatus(file, c, id);
    CheckStatusDoc(file, c2, id2);
    assert Flag(unmarked, c2) == Flag(doc, c2);
    if !IsSingleton(c) && c != Covers && c2 == c {
      DroppedKeepsOthers(Members(doc, c), id, id2);
    }
    assert id2 in Members(unmarked, c2) <==> id2 in Members(doc, c2);
    CheckStatusAgree(doc, unmarked, c2, id2);
  }

  /** Dropping one id keeps every other id's membership. */
  lemma DroppedKeepsOthers(ids: seq<string>, id: string, id2: string)
    requires id2 != id
    ensures id2 in Dropped(ids, id) <==> id2 in ids
  {
    if id in ids {
      assert multiset(Dropped(ids, id)) == multiset(ids) - multiset{id};
      assert id2 in Dropped(ids, id) <==> id2 in multiset(Dropped(ids, id));
      assert id2 in ids <==> id2 in multiset(ids);
    }
  }
}
