/**
 * A category's record list and its keyed operations (`CacheData.Exists`, `Update`,
 * `Delete` and the upsert inside `SingleCacheData.Write`), as in
 * internal/models/api/cache-methods.go and its lock-free twin
 * internal/models/cache-methods.go.
 */
module CacheList {
  import opened Results
  import opened ApiModels
  import opened CacheModels

  /** The composite key of a record. */
  datatype CacheKey = CacheKey(id: string, order: string, offset: int)

  function KeyOf(r: Record): CacheKey {
    CacheKey(r.id, r.order, r.offset)
  }

  /** What a category file holds: no file, a zero-byte file, or a JSON array of records. */
  datatype CacheFile = Missing | Blank | Stored(records: seq<Record>)

  const NotFound: string := "singleCacheData not found"

  predicate HasKey(cache: seq<Record>, k: CacheKey) {
    exists i :: 0 <= i < |cache| && KeyOf(cache[i]) == k
  }

  /** No two records of the list share a composite key. */
  predicate KeyUnique(cache: seq<Record>) {
    forall i, j :: 0 <= i < j < |cache| ==> KeyOf(cache[i]) != KeyOf(cache[j])
  }

  /** The index of the first record with key `k`, or -1 when there is none. */
  function FirstMatch(cache: seq<Record>, k: CacheKey): (r: int)
    ensures -1 <= r < |cache|
    ensures r == -1 <==> !HasKey(cache, k)
    ensures r >= 0 ==> KeyOf(cache[r]) == k
    ensures r >= 0 ==> forall j :: 0 <= j < r ==> KeyOf(cache[j]) != k
    decreases |cache|
  {
    if |cache| == 0 then -1
    else if KeyOf(cache[0]) == k then 0
    else
      var t := FirstMatch(cache[1..], k);
      assert forall i :: 0 < i < |cache| ==> cache[i] == cache[1..][i - 1];
      if t == -1 then -1 else t + 1
  }

  /** Number of records carrying key `k`. */
  function CountKey(cache: seq<Record>, k: CacheKey): nat
    decreases |cache|
  {
    if |cache| == 0 then 0
    else CountKey(cache[..|cache| - 1], k) + (if KeyOf(cache[|cache| - 1]) == k then 1 else 0)
  }

  /** `CacheData.Exists`: a linear scan for the key (id, order, offset). */
  method Exists(cache: seq<Record>, id: string, order: string, offset: int) returns (found: bool)
    ensures found <==> HasKey(cache, CacheKey(id, order, offset))
  {
    for i := 0 to |cache|
      invariant forall j :: 0 <= j < i ==> KeyOf(cache[j]) != CacheKey(id, order, offset)
    {
      if cache[i].id == id && cache[i].order == order && cache[i].offset == offset {
        return true;
      }
    }
    return false;
  }

  /**
   * What `CacheData.Update` returns: the list with its first record of the datum's key
   * replaced by the datum, or the not-found error.
   */
  function Updated(cache: seq<Record>, newDatum: Record): (r: Result<seq<Record>>)
    ensures r.Ok? <==> HasKey(cache, KeyOf(newDatum))
    ensures r.Err? ==> r.msg == NotFound
    ensures r.Ok? ==> |r.value| == |cache|
    ensures r.Ok? ==> r.value[FirstMatch(cache, KeyOf(newDatum))] == newDatum
    ensures r.Ok? ==> forall i :: 0 <= i < |cache| && i != FirstMatch(cache, KeyOf(newDatum)) ==> r.value[i] == cache[i]
  {
    var k := FirstMatch(cache, KeyOf(newDatum));
    if k == -1 then Err(NotFound) else Ok(cache[k := newDatum])
  }

  /** `CacheData.Update`, which overwrites the matching slot of the slice in place. */
  method Update(cache: array<Record>, newDatum: Record) returns (err: Option<string>)
    modifies cache
    ensures err.None? <==> HasKey(old(cache[..]), KeyOf(newDatum))
    ensures err.None? ==> cache[..] == Updated(old(cache[..]), newDatum).value
    ensures err.Some? ==> cache[..] == old(cache[..]) && err.value == NotFound
  {
    for ind := 0 to cache.Length
      invariant forall j :: 0 <= j < ind ==> KeyOf(cache[j]) != KeyOf(newDatum)
      invariant cache[..] == old(cache[..])
    {
      if cache[ind].id == newDatum.id && cache[ind].order == newDatum.order && cache[ind].offset == newDatum.offset {
        cache[ind] := newDatum;
        return None;
      }
    }
    return Some(NotFound);
  }

  /** The list without its element at index `k`. */
  function Removed(cache: seq<Record>, k: nat): (r: seq<Record>)
    requires k < |cache|
    ensures |r| == |cache| - 1
    ensures forall i :: 0 <= i < k ==> r[i] == cache[i]
    ensures forall i :: k <= i < |r| ==> r[i] == cache[i + 1]
  {
    cache[..k] + cache[k + 1..]
  }

  /**
   * `CacheData.Delete`: search for the first record of the key, then splice it out;
   * an absent key leaves the list as it was and reports the not-found error.
   */
  method Delete(cache: seq<Record>, id: string, order: string, offset: int) returns (r: seq<Record>, err: Option<string>)
    ensures err.None? <==> HasKey(cache, CacheKey(id, order, offset))
    ensures err.None? ==> r == Removed(cache, FirstMatch(cache, CacheKey(id, order, offset)))
    ensures err.Some? ==> r == cache && err.value == NotFound
  {
    var idx := 0;
    var found := false;
    var i := 0;
    while i < |cache|
      invariant 0 <= i <= |cache|
      invariant !found
      invariant forall j :: 0 <= j < i ==> KeyOf(cache[j]) != CacheKey(id, order, offset)
    {
      if cache[i].id == id && cache[i].order == order && cache[i].offset == offset {
        idx := i;
        found := true;
        break;
      }
      i := i + 1;
    }
    if found {
      assert FirstMatch(cache, CacheKey(id, order, offset)) == idx;
      return cache[..idx] + cache[idx + 1..], None;
    }
    return cache, Some(NotFound);
  }

  /**
   * The list `Write` saves: the matching record replaced in place, or the datum appended
   * at the end when its key is new.
   */
  function Upsert(cache: seq<Record>, datum: Record): (r: seq<Record>)
    ensures HasKey(r, KeyOf(datum))
    ensures r[FirstMatch(r, KeyOf(datum))] == datum
    ensures |r| == if HasKey(cache, KeyOf(datum)) then |cache| else |cache| + 1
    ensures forall i :: 0 <= i < |cache| && i != FirstMatch(cache, KeyOf(datum)) ==> r[i] == cache[i]
    ensures !HasKey(cache, KeyOf(datum)) ==> r[|cache|] == datum
  {
    if HasKey(cache, KeyOf(datum)) then
      var r := Updated(cache, datum).value;
      assert FirstMatch(r, KeyOf(datum)) == FirstMatch(cache, KeyOf(datum));
      r
    else
      var r := cache + [datum];
      assert KeyOf(r[|cache|]) == KeyOf(datum);
      assert FirstMatch(r, KeyOf(datum)) == |cache|;
      r
  }

  /**
   * The outcome of `SingleCacheData.Write` before the file is rewritten: with `append`
   * the current file is read (a missing file is an error, an empty one an empty list),
   * without it the list starts empty; then the datum is upserted.
   */
  function WriteResult(file: CacheFile, datum: Record, append: bool): (r: Result<seq<Record>>)
    ensures !append ==> r == Ok([datum])
    ensures r.Err? <==> append && file.Missing?
    ensures append && file.Stored? ==> r == Ok(Upsert(file.records, datum))
    ensures append && file.Blank? ==> r == Ok([datum])
  {
    UpsertIntoEmpty(datum);
    if !append then Ok(Upsert([], datum))
    else match file
      case Missing => Err("open: no such file or directory")
      case Blank => Ok(Upsert([], datum))
      case Stored(records) => Ok(Upsert(records, datum))
  }

  lemma UpsertIntoEmpty(datum: Record)
    ensures Upsert([], datum) == [datum]
  {
    assert !HasKey([], KeyOf(datum));
  }

  /** Deleting the key of a record that was just appended gives back the old list. */
  lemma DeleteUndoesAppend(cache: seq<Record>, datum: Record)
    requires !HasKey(cache, KeyOf(datum))
    ensures Upsert(cache, datum) == cache + [datum]
    ensures Removed(cache + [datum], FirstMatch(cache + [datum], KeyOf(datum))) == cache
  {
    var r := Upsert(cache, datum);
    assert |r| == |cache| + 1;
    assert r == cache + [datum];
    assert FirstMatch(r, KeyOf(datum)) == |cache|;
    assert (cache + [datum])[..|cache|] == cache;
  }

  /** A list without repeated keys keeps that property through an upsert. */
  lemma UpsertKeepsKeysUnique(cache: seq<Record>, datum: Record)
    requires KeyUnique(cache)
    ensures KeyUnique(Upsert(cache, datum))
  {
    var r := Upsert(cache, datum);
    var k := FirstMatch(cache, KeyOf(datum));
    forall i, j | 0 <= i < j < |r| ensures KeyOf(r[i]) != KeyOf(r[j]) {
      if HasKey(cache, KeyOf(datum)) {
        if i == k {
          assert KeyOf(r[j]) == KeyOf(cache[j]);
        } else if j == k {
          assert KeyOf(r[i]) == KeyOf(cache[i]);
        }
      } else if j == |cache| {
        assert r[i] == cache[i];
        assert !(KeyOf(cache[i]) == KeyOf(datum));
      }
    }
  }

  lemma {:induction false} CountKeyZero(cache: seq<Record>, k: CacheKey)
    ensures CountKey(cache, k) == 0 <==> !HasKey(cache, k)
    decreases |cache|
  {
    if |cache| > 0 {
      var init := cache[..|cache| - 1];
      CountKeyZero(init, k);
      if HasKey(init, k) {
        var i :| 0 <= i < |init| && KeyOf(init[i]) == k;
        assert KeyOf(cache[i]) == k;
      }
      if HasKey(cache, k) && KeyOf(cache[|cache| - 1]) != k {
        var i :| 0 <= i < |cache| && KeyOf(cache[i]) == k;
        assert KeyOf(init[i]) == k;
      }
    }
  }

  /** If no record had the datum's key, after the write exactly one has it. */
  lemma UpsertLeavesOneRecordOfKey(cache: seq<Record>, datum: Record)
    requires CountKey(cache, KeyOf(datum)) == 0
    ensures CountKey(Upsert(cache, datum), KeyOf(datum)) == 1
  {
    CountKeyZero(cache, KeyOf(datum));
    var r := Upsert(cache, datum);
    assert r == cache + [datum];
    assert r[..|r| - 1] == cache;
  }

  /**
   * Writing the same key twice leaves what the second write alone would have left:
   * one record for the key, holding the later datum.
   */
  lemma LaterWriteWins(cache: seq<Record>, first: Record, second: Record)
    requires KeyOf(first) == KeyOf(second)
    ensures Upsert(Upsert(cache, first), second) == Upsert(cache, second)
  {
    var k := KeyOf(first);
    var once := Upsert(cache, first);
    if HasKey(cache, k) {
      var m := FirstMatch(cache, k);
      assert FirstMatch(once, k) == m by {
        assert forall j :: 0 <= j < m ==> once[j] == cache[j];
      }
      assert Upsert(once, second) == cache[m := second];
    } else {
      assert once == cache + [first];
      assert FirstMatch(once, k) == |cache| by {
        assert forall j :: 0 <= j < |cache| ==> once[j] == cache[j];
      }
      assert Upsert(once, second) == cache + [second];
    }
  }

  /** Decoding a cached payload as an `ApiManga` (the typed re-decoder of a record). */
  function DecodeApiManga(p: Payload): (r: Result<ApiManga>)
    ensures p.MangaList? ==> r == Ok(p.apiManga)
    ensures p.Null? ==> r == Ok(ZeroApiManga)
    ensures r.Err? <==> !p.MangaList? && !p.Null?
  {
    match p
    case Null => Ok(ZeroApiManga)
    case MangaList(m) => Ok(m)
    case _ => Err("json: cannot unmarshal into ApiManga")
  }

  /** Decoding a cached payload as an `ApiCover`. */
  function DecodeApiCover(p: Payload): (r: Result<ApiCover>)
    ensures p.CoverList? ==> r == Ok(p.apiCover)
    ensures p.Null? ==> r == Ok(ZeroApiCover)
    ensures r.Err? <==> !p.CoverList? && !p.Null?
  {
    match p
    case Null => Ok(ZeroApiCover)
    case CoverList(c) => Ok(c)
    case _ => Err("json: cannot unmarshal into ApiCover")
  }
}
