/**
 * Building a MangaDex search query from a `MangaRequest` (`Params`, `ToQuery`) and
 * folding a response's error list into one message (`CheckResponse`), in the newer
 * package internal/models/api/api-methods.go and the older internal/models/api-methods.go.
 */
module ApiQuery {
  import opened Results
  import opened Strconv
  import opened ApiModels

  /** A `url.Values`: each parameter name maps to its list of values. */
  type Query = map<string, seq<string>>

  /** `Params` of the newer package: an empty order type is read as `rating`. */
  function Params(r: MangaRequest): (p: MangaRequestParam)
    ensures p.order == "order[" + (if r.orderType == "" then "rating" else r.orderType) + "]"
    ensures p.includedTags == "includedTags[]" && p.excludedTags == "excludedTags[]"
  {
    var orderType := if r.orderType == "" then "rating" else r.orderType;
    MangaRequestParam(
      "order[" + orderType + "]", "includedTags[]", "excludedTags[]",
      "availableTranslatedLanguage[]", "title", "author", "authorOrArtist",
      "status[]", "publicationDemographic[]", "contentRating[]", "limit", "offset")
  }

  /** `Params` of the older package: no default order type, and tag names without `[]`. */
  function LegacyParams(r: MangaRequest): (p: MangaRequestParam)
    ensures p.order == "order[" + r.orderType + "]"
    ensures p.includedTags == "includedTags" && p.excludedTags == "excludedTags"
  {
    MangaRequestParam(
      "order[" + r.orderType + "]", "includedTags", "excludedTags",
      "availableTranslatedLanguage[]", "title", "author", "authorOrArtist",
      "status[]", "publicationDemographic[]", "contentRating[]", "limit", "offset")
  }

  function Names(p: MangaRequestParam): seq<string> {
    [p.order, p.includedTags, p.excludedTags, p.translatedLanguage, p.title, p.author,
     p.authorOrArtist, p.status, p.public, p.contentRating, p.limit, p.offset]
  }

  /** Reads the order type back out of an order parameter name `order[<type>]`. */
  function OrderTypeOfKey(key: string): (r: Option<string>)
    ensures r.Some? ==> key == "order[" + r.value + "]"
  {
    if |key| >= 7 && key[..6] == "order[" && key[|key| - 1] == ']' then
      assert key == key[..6] + key[6..|key| - 1] + [key[|key| - 1]];
      Some(key[6..|key| - 1])
    else None
  }

  /** An order key `order[<type>]` is none of the eleven fixed parameter names, which are distinct. */
  lemma OrderKeyIsNotFixed(t: string, p: MangaRequestParam)
    requires p.includedTags in {"includedTags[]", "includedTags"}
    requires p.excludedTags in {"excludedTags[]", "excludedTags"}
    requires p.translatedLanguage == "availableTranslatedLanguage[]" && p.title == "title"
    requires p.author == "author" && p.authorOrArtist == "authorOrArtist" && p.status == "status[]"
    requires p.public == "publicationDemographic[]" && p.contentRating == "contentRating[]"
    requires p.limit == "limit" && p.offset == "offset"
    requires p.order == "order[" + t + "]"
    ensures LaterNamesDiffer(p)
  {
    OrderKeyShape(t);
    OrderKeyDiffers(p);
    FixedNamesAreDistinct(p);
  }

  /** A name opening with "or" is none of the fixed names, whose openings differ from it. */
  lemma OrderKeyDiffers(p: MangaRequestParam)
    requires p.includedTags in {"includedTags[]", "includedTags"}
    requires p.excludedTags in {"excludedTags[]", "excludedTags"}
    requires p.translatedLanguage == "availableTranslatedLanguage[]" && p.title == "title"
    requires p.author == "author" && p.authorOrArtist == "authorOrArtist" && p.status == "status[]"
    requires p.public == "publicationDemographic[]" && p.contentRating == "contentRating[]"
    requires p.limit == "limit" && p.offset == "offset"
    requires |p.order| >= 2 && p.order[0] == 'o' && p.order[1] == 'r'
    ensures OrderNameDiffers(p)
  {
    var k := p.order;
    assert k[0] == 'o' && k[1] == 'r';
  }

  /** The fixed names of both parameter sets are pairwise distinct. */
  lemma FixedNamesAreDistinct(p: MangaRequestParam)
    requires p.includedTags in {"includedTags[]", "includedTags"}
    requires p.excludedTags in {"excludedTags[]", "excludedTags"}
    requires p.translatedLanguage == "availableTranslatedLanguage[]" && p.title == "title"
    requires p.author == "author" && p.authorOrArtist == "authorOrArtist" && p.status == "status[]"
    requires p.public == "publicationDemographic[]" && p.contentRating == "contentRating[]"
    requires p.limit == "limit" && p.offset == "offset"
    ensures FixedNamesDiffer(p)
  {
  }

  /**
   * Every name of both parameter sets differs from every other (the explicit pairwise
   * form is `LaterNamesDiffer`), and the order key gives back its type.
   */
  lemma ParamNamesDistinct(r: MangaRequest)
    ensures LaterNamesDiffer(Params(r)) && LaterNamesDiffer(LegacyParams(r))
    ensures OrderTypeOfKey(Params(r).order) == Some(if r.orderType == "" then "rating" else r.orderType)
    ensures OrderTypeOfKey(LegacyParams(r).order) == Some(r.orderType)
  {
    var t := if r.orderType == "" then "rating" else r.orderType;
    OrderKeyShape(t);
    OrderKeyShape(r.orderType);
    OrderKeyIsNotFixed(t, Params(r));
    OrderKeyIsNotFixed(r.orderType, LegacyParams(r));
  }

  lemma OrderKeyShape(t: string)
    ensures var k := "order[" + t + "]";
      |k| >= 7 && k[..6] == "order[" && k[0] == 'o' && k[1] == 'r' && k[|k| - 1] == ']' && k[6..|k| - 1] == t
  {
    var k := "order[" + t + "]";
    assert k[..6] == "order[";
  }

  /**
   * The query `ToQuery` fills key by key: the order, each optional filter when set, then
   * the fixed language and rating and the decimal limit and offset.
   */
  function QueryOf(p: MangaRequestParam, r: MangaRequest, orderValue: string): (q: Query)
    ensures p.order in q && p.translatedLanguage in q && p.contentRating in q && p.limit in q
    ensures p.offset in q && q[p.offset] == [Itoa(r.offset)]
  {
    var q0 := map[p.order := [orderValue]];
    var q1 := if r.includedTags.Some? then q0[p.includedTags := r.includedTags.value] else q0;
    var q2 := if r.excludedTags.Some? then q1[p.excludedTags := r.excludedTags.value] else q1;
    var q3 := if r.title != "" then q2[p.title := [r.title]] else q2;
    var q4 := if r.author != "" then q3[p.author := [r.author]] else q3;
    var q5 := if r.authorOrArtist != "" then q4[p.authorOrArtist := [r.authorOrArtist]] else q4;
    var q6 := if r.status.Some? then q5[p.status := r.status.value] else q5;
    var q7 := if r.public.Some? then q6[p.public := r.public.value] else q6;
    q7[p.translatedLanguage := ["en"]][p.contentRating := ["safe"]]
      [p.limit := [Itoa(r.limit)]][p.offset := [Itoa(r.offset)]]
  }

  /** The order and the tag filters of a query for request `r`. */
  predicate HoldsOrderAndTags(q: Query, p: MangaRequestParam, r: MangaRequest, orderValue: string) {
    && p.order in q && q[p.order] == [orderValue]
    && (p.includedTags in q <==> r.includedTags.Some?)
    && (r.includedTags.Some? ==> q[p.includedTags] == r.includedTags.value)
    && (p.excludedTags in q <==> r.excludedTags.Some?)
    && (r.excludedTags.Some? ==> q[p.excludedTags] == r.excludedTags.value)
  }

  /** The free-text filters, present exactly when non-empty. */
  predicate HoldsText(q: Query, p: MangaRequestParam, r: MangaRequest) {
    && (p.title in q <==> r.title != "") && (r.title != "" ==> q[p.title] == [r.title])
    && (p.author in q <==> r.author != "") && (r.author != "" ==> q[p.author] == [r.author])
    && (p.authorOrArtist in q <==> r.authorOrArtist != "")
    && (r.authorOrArtist != "" ==> q[p.authorOrArtist] == [r.authorOrArtist])
  }

  /** The status and demographic filters, and the fixed language. */
  predicate HoldsFilters(q: Query, p: MangaRequestParam, r: MangaRequest) {
    && (p.status in q <==> r.status.Some?) && (r.status.Some? ==> q[p.status] == r.status.value)
    && (p.public in q <==> r.public.Some?) && (r.public.Some? ==> q[p.public] == r.public.value)
    && p.translatedLanguage in q && q[p.translatedLanguage] == ["en"]
  }

  /** The fixed content rating and the decimal limit and offset. */
  predicate HoldsPaging(q: Query, p: MangaRequestParam, r: MangaRequest) {
    && p.contentRating in q && q[p.contentRating] == ["safe"]
    && p.limit in q && q[p.limit] == [Itoa(r.limit)]
    && p.offset in q && q[p.offset] == [Itoa(r.offset)]
  }

  /**
   * What a query built from request `r` with parameter names `p` and order value
   * `orderValue` holds, key by key, and that it holds no other key.
   */
  predicate HoldsRequest(q: Query, p: MangaRequestParam, r: MangaRequest, orderValue: string) {
    && (forall k :: k in q ==> k in Names(p))
    && HoldsOrderAndTags(q, p, r, orderValue)
    && HoldsText(q, p, r)
    && HoldsFilters(q, p, r)
    && HoldsPaging(q, p, r)
  }

  /** The twelve parameter names are pairwise distinct, each compared with those after it. */
  predicate LaterNamesDiffer(p: MangaRequestParam) {
    OrderNameDiffers(p) && FixedNamesDiffer(p)
  }

  /** The order name differs from the eleven others. */
  predicate OrderNameDiffers(p: MangaRequestParam) {
    p.order !in [p.includedTags, p.excludedTags, p.title, p.author, p.authorOrArtist, p.status, p.public, p.translatedLanguage, p.contentRating, p.limit, p.offset]
  }

  /** The eleven names after the order are pairwise distinct, each compared with those after it. */
  predicate FixedNamesDiffer(p: MangaRequestParam) {
    && p.includedTags !in [p.excludedTags, p.title, p.author, p.authorOrArtist, p.status, p.public, p.translatedLanguage, p.contentRating, p.limit, p.offset]
    && p.excludedTags !in [p.title, p.author, p.authorOrArtist, p.status, p.public, p.translatedLanguage, p.contentRating, p.limit, p.offset]
    && p.title !in [p.author, p.authorOrArtist, p.status, p.public, p.translatedLanguage, p.contentRating, p.limit, p.offset]
    && p.author !in [p.authorOrArtist, p.status, p.public, p.translatedLanguage, p.contentRating, p.limit, p.offset]
    && p.authorOrArtist !in [p.status, p.public, p.translatedLanguage, p.contentRating, p.limit, p.offset]
    && p.status !in [p.public, p.translatedLanguage, p.contentRating, p.limit, p.offset]
    && p.public !in [p.translatedLanguage, p.contentRating, p.limit, p.offset]
    && p.translatedLanguage !in [p.contentRating, p.limit, p.offset]
    && p.contentRating !in [p.limit, p.offset]
    && p.limit != p.offset
  }

  /** With distinct parameter names, the filled query carries exactly the request. */
  lemma QueryOfHoldsRequest(p: MangaRequestParam, r: MangaRequest, orderValue: string)
    requires LaterNamesDiffer(p)
    ensures HoldsRequest(QueryOf(p, r, orderValue), p, r, orderValue)
  {
    QueryOfKeys(p, r, orderValue);
    QueryOfOrderAndTags(p, r, orderValue);
    QueryOfText(p, r, orderValue);
    QueryOfFilters(p, r, orderValue);
    QueryOfPaging(p, r, orderValue);
  }

  lemma QueryOfKeys(p: MangaRequestParam, r: MangaRequest, orderValue: string)
    ensures forall k :: k in QueryOf(p, r, orderValue) ==> k in Names(p)
  {
    var names := Names(p);
    assert names[0] == p.order && names[1] == p.includedTags && names[2] == p.excludedTags;
    assert names[3] == p.translatedLanguage && names[4] == p.title && names[5] == p.author;
    assert names[6] == p.authorOrArtist && names[7] == p.status && names[8] == p.public;
    assert names[9] == p.contentRating && names[10] == p.limit && names[11] == p.offset;
  }

  lemma QueryOfOrderAndTags(p: MangaRequestParam, r: MangaRequest, orderValue: string)
    requires LaterNamesDiffer(p)
    ensures HoldsOrderAndTags(QueryOf(p, r, orderValue), p, r, orderValue)
  {
  }

  lemma QueryOfText(p: MangaRequestParam, r: MangaRequest, orderValue: string)
    requires LaterNamesDiffer(p)
    ensures HoldsText(QueryOf(p, r, orderValue), p, r)
  {
  }

  lemma QueryOfFilters(p: MangaRequestParam, r: MangaRequest, orderValue: string)
    requires LaterNamesDiffer(p)
    ensures HoldsFilters(QueryOf(p, r, orderValue), p, r)
  {
  }

  lemma QueryOfPaging(p: MangaRequestParam, r: MangaRequest, orderValue: string)
    requires LaterNamesDiffer(p)
    ensures HoldsPaging(QueryOf(p, r, orderValue), p, r)
  {
  }

  /** The key-by-key fill shared by both `ToQuery` variants. */
  method FillQuery(p: MangaRequestParam, r: MangaRequest, orderValue: string) returns (q: Query)
    ensures q == QueryOf(p, r, orderValue)
  {
    q := map[];
    q := q[p.order := [orderValue]];
    if r.includedTags.Some? {
      q := q[p.includedTags := r.includedTags.value];
    }
    if r.excludedTags.Some? {
      q := q[p.excludedTags := r.excludedTags.value];
    }
    if r.title != "" {
      q := q[p.title := [r.title]];
    }
    if r.author != "" {
      q := q[p.author := [r.author]];
    }
    if r.authorOrArtist != "" {
      q := q[p.authorOrArtist := [r.authorOrArtist]];
    }
    if r.status.Some? {
      q := q[p.status := r.status.value];
    }
    if r.public.Some? {
      q := q[p.public := r.public.value];
    }
    q := q[p.translatedLanguage := ["en"]];
    q := q[p.contentRating := ["safe"]];
    q := q[p.limit := [Itoa(r.limit)]];
    q := q[p.offset := [Itoa(r.offset)]];
  }

  /** `ToQuery` of the newer package: an empty order value becomes `desc`. */
  method ToQuery(r: MangaRequest) returns (q: Query)
    ensures HoldsRequest(q, Params(r), r, if r.orderValue == "" then "desc" else r.orderValue)
  {
    var params := Params(r);
    ParamNamesDistinct(r);
    var orderValue := r.orderValue;
    if orderValue == "" {
      orderValue := "desc";
    }
    q := FillQuery(params, r, orderValue);
    QueryOfHoldsRequest(params, r, orderValue);
  }

  /** `ToQuery` of the older package: the order value is copied even when empty. */
  method LegacyToQuery(r: MangaRequest) returns (q: Query)
    ensures HoldsRequest(q, LegacyParams(r), r, r.orderValue)
  {
    ParamNamesDistinct(r);
    q := FillQuery(LegacyParams(r), r, r.orderValue);
    QueryOfHoldsRequest(LegacyParams(r), r, r.orderValue);
  }

  /** Limit and offset are read back exactly from a query, for every 64-bit value. */
  lemma QueryPagingRoundTrip(q: Query, p: MangaRequestParam, r: MangaRequest, orderValue: string)
    requires HoldsRequest(q, p, r, orderValue)
    requires MinInt64 <= r.limit <= MaxInt64 && MinInt64 <= r.offset <= MaxInt64
    ensures Atoi(q[p.limit][0]) == Some(r.limit) && Atoi(q[p.offset][0]) == Some(r.offset)
  {
    ItoaRoundTrip(r.limit);
    ItoaRoundTrip(r.offset);
  }

  /** One error entry as `CheckResponse` prints it. */
  function ErrorEntry(e: ApiErr): string {
    "error " + Itoa(e.status) + ": " + e.title + " -> " + e.detail
  }

  /** The message `CheckResponse` builds: the entries concatenated in order. */
  function ErrorMessage(errs: seq<ApiErr>): (r: string)
    ensures r == "" <==> |errs| == 0
    decreases |errs|
  {
    if |errs| == 0 then "" else ErrorMessage(errs[..|errs| - 1]) + ErrorEntry(errs[|errs| - 1])
  }

  /** The message of two error lists is the first list's message followed by the second's. */
  lemma {:induction false} ErrorMessageAppend(a: seq<ApiErr>, b: seq<ApiErr>)
    ensures ErrorMessage(a + b) == ErrorMessage(a) + ErrorMessage(b)
    decreases |b|
  {
    if |b| > 0 {
      var init := b[..|b| - 1];
      var last := ErrorEntry(b[|b| - 1]);
      assert (a + b)[..|a + b| - 1] == a + init;
      assert (a + b)[|a + b| - 1] == b[|b| - 1];
      assert ErrorMessage(a + b) == ErrorMessage(a + init) + last;
      assert ErrorMessage(b) == ErrorMessage(init) + last;
      ErrorMessageAppend(a, init);
      ConcatAssoc(ErrorMessage(a), ErrorMessage(init), last);
    } else {
      assert a + b == a;
    }
  }

  lemma ConcatAssoc(x: string, y: string, z: string)
    ensures (x + y) + z == x + (y + z)
  {
  }

  /** A non-empty list's message opens with the first entry. */
  lemma ErrorMessageStartsWithFirst(errs: seq<ApiErr>)
    requires |errs| > 0
    ensures var m := ErrorMessage(errs); var e := ErrorEntry(errs[0]);
      |m| >= |e| && m[..|e|] == e
  {
    var e := ErrorEntry(errs[0]);
    var rest := ErrorMessage(errs[1..]);
    ErrorMessageAppend([errs[0]], errs[1..]);
    assert [errs[0]] + errs[1..] == errs;
    ErrorMessageSingle(errs[0]);
    PrefixOfConcat(e, rest);
  }

  lemma ErrorMessageSingle(x: ApiErr)
    ensures ErrorMessage([x]) == ErrorEntry(x)
  {
    assert [x][..0] == [];
  }

  lemma PrefixOfConcat(e: string, rest: string)
    ensures (e + rest)[..|e|] == e
  {
  }

  /** `CheckResponse` of the newer package: an error exactly when the list is non-empty. */
  method CheckResponse(errs: seq<ApiErr>) returns (err: Option<string>)
    ensures err.Some? <==> |errs| > 0
    ensures err.Some? ==> err.value == ErrorMessage(errs)
  {
    if |errs| > 0 {
      var msg := "";
      for i := 0 to |errs|
        invariant msg == ErrorMessage(errs[..i])
      {
        msg := msg + ErrorEntry(errs[i]);
        assert errs[..i + 1][..i] == errs[..i];
      }
      assert errs[..|errs|] == errs;
      return Some(msg);
    }
    return None;
  }

  predicate ServerError(e: ApiErr) { e.status >= 500 }

  /**
   * `CheckResponse` of the older package, with the global `ApiErrorStatus` passed in and
   * out: no error clears it; errors set it when one has a 5xx status and otherwise leave
   * it as it was.
   */
  method LegacyCheckResponse(errs: seq<ApiErr>, apiErrorStatus: bool) returns (err: Option<string>, status: bool)
    ensures err.Some? <==> |errs| > 0
    ensures err.Some? ==> err.value == ErrorMessage(errs)
    ensures |errs| == 0 ==> !status
    ensures |errs| > 0 ==> (status <==> apiErrorStatus || exists i :: 0 <= i < |errs| && ServerError(errs[i]))
  {
    status := apiErrorStatus;
    if |errs| > 0 {
      var msg := "";
      for i := 0 to |errs|
        invariant msg == ErrorMessage(errs[..i])
        invariant status <==> apiErrorStatus || exists j :: 0 <= j < i && ServerError(errs[j])
      {
        if errs[i].status >= 500 {
          status := true;
          assert ServerError(errs[i]);
        } else {
          assert forall j :: 0 <= j < i + 1 && ServerError(errs[j]) ==> j < i;
        }
        msg := msg + ErrorEntry(errs[i]);
        assert errs[..i + 1][..i] == errs[..i];
      }
      assert errs[..|errs|] == errs;
      return Some(msg), status;
    }
    status := false;
    return None, status;
  }
}
