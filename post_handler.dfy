/**
 * The post HTTP handlers' own logic: normalising a feed request (page,
 * page size, sort and filters), shaping the response (total pages, one item
 * per post with its excerpt and author name), and the limit/offset query
 * parameters of the plain post list.
 */
module PostHandler {
  import opened Wrappers
  import opened GoTypes
  import opened GoStrings
  import opened Strconv
  import opened UserDomain
  import opened UserRepo
  import opened PostDomain
  import opened PostRepo
  import opened PostService

  // ---- sort ---------------------------------------------------------------

  /** The sort field a client names, by its synonyms in any case, or "" when unrecognised. */
  function NormalizeSortField(field: string): (r: string)
    ensures r == "" || ColumnNamed(r).Some?
  {
    var key := ToLower(TrimSpace(field));
    if key in {"created_at", "createdat", "time"} then "created_at"
    else if key == "views" then "views"
    else if key == "likes" then "likes"
    else if key == "stars" then "stars"
    else if key in {"comment_number", "comments", "replies"} then "comment_number"
    else ""
  }

  /** The synonyms of each sort field, compared after trimming and lower-casing. */
  lemma SortFieldSynonyms(field: string)
    ensures var key, r := ToLower(TrimSpace(field)), NormalizeSortField(field);
      && (r == "created_at" <==> key in {"created_at", "createdat", "time"})
      && (r == "views" <==> key == "views")
      && (r == "likes" <==> key == "likes")
      && (r == "stars" <==> key == "stars")
      && (r == "comment_number" <==> key in {"comment_number", "comments", "replies"})
      && (r == "" <==> key !in {"created_at", "createdat", "time", "views", "likes", "stars", "comment_number", "comments", "replies"})
  {
    assert "views"[0] == 'v' && "likes"[0] == 'l' && "stars"[0] == 's';
    assert |""| == 0 && |"created_at"| == 10 && |"comment_number"| == 14;
  }

  /** "asc" for the ascending spellings in any case, "desc" for anything else. */
  function NormalizeSortDirection(direction: string): (r: string)
    ensures r == "asc" || r == "desc"
  {
    if ToLower(TrimSpace(direction)) in {"asc", "ascend", "ascending"} then "asc" else "desc"
  }

  /** The ascending spellings, compared after trimming and lower-casing. */
  lemma SortDirectionSpellings(direction: string)
    ensures NormalizeSortDirection(direction) == "asc" <==> ToLower(TrimSpace(direction)) in {"asc", "ascend", "ascending"}
  {
  }

  /** A lower-case word of letters and underscores is its own lower-cased, trimmed form. */
  lemma PlainWord(w: string)
    requires forall k | 0 <= k < |w| :: 'a' <= w[k] <= 'z' || w[k] == '_'
    ensures ToLower(TrimSpace(w)) == w
  {
    if w != [] {
      assert !IsSpace(w[0]) && !IsSpace(w[|w| - 1]);
    }
    TrimSpaceOfUnpadded(w);
    var lower := ToLower(w);
    assert forall k | 0 <= k < |w| :: lower[k] == w[k];
    assert lower == w;
  }

  /** A word of letters is trimmed to itself. */
  lemma LetterWord(w: string)
    requires forall k | 0 <= k < |w| :: 'a' <= w[k] <= 'z' || 'A' <= w[k] <= 'Z'
    ensures TrimSpace(w) == w
  {
    if w != [] {
      assert !IsSpace(w[0]) && !IsSpace(w[|w| - 1]);
    }
    TrimSpaceOfUnpadded(w);
  }

  /** "Time", in any case, is a synonym of created_at. */
  lemma TimeIsCreatedAt()
    ensures NormalizeSortField("Time") == "created_at"
  {
    LetterWord("Time");
    assert ToLower("Time") == "time";
  }

  /** "id", a column of the posts table, is not a sort field. */
  lemma IdIsNoSortField()
    ensures NormalizeSortField("id") == ""
  {
    PlainWord("id");
  }

  /** "ASC" is an ascending spelling. */
  lemma UpperAscIsAsc()
    ensures NormalizeSortDirection("ASC") == "asc"
  {
    LetterWord("ASC");
    assert ToLower("ASC") == "asc";
  }

  /** An empty direction is descending. */
  lemma EmptyDirectionIsDesc()
    ensures NormalizeSortDirection("") == "desc"
  {
    assert TrimSpace("") == "";
  }

  /**
   * The sort a request's sort map selects, with `keys` its keys in the
   * order Go's map iteration visits them: only the first key visited is
   * looked at.
   */
  function ChosenSort(sort: map<string, string>, keys: seq<string>): (r: Option<PostListSort>)
    requires forall k :: k in sort <==> k in keys
    ensures r.None? <==> |sort| == 0 || NormalizeSortField(keys[0]) == ""
    ensures r.Some? ==> r.value == PostListSort(NormalizeSortField(keys[0]), NormalizeSortDirection(sort[keys[0]]))
    ensures r.Some? ==> ColumnNamed(r.value.field).Some? && (r.value.direction == "asc" || r.value.direction == "desc")
  {
    if |sort| == 0 then None
    else
      var f := NormalizeSortField(keys[0]);
      if f == "" then None else Some(PostListSort(f, NormalizeSortDirection(sort[keys[0]])))
  }

  /** normalizePostListSort: the loop returns on the first key it visits. */
  method NormalizePostListSort(sort: map<string, string>, keys: seq<string>) returns (r: Option<PostListSort>)
    requires forall k :: k in sort <==> k in keys
    ensures r == ChosenSort(sort, keys)
  {
    r := None;
    if |sort| == 0 {
      return;
    }
    var i, done := 0, false;
    while i < |keys| && !done
      invariant i <= 1 && (done <==> i == 1)
      invariant i == 1 ==> r == ChosenSort(sort, keys)
      invariant i == 0 ==> r == None
      decreases |keys| - i
    {
      var field := keys[i];
      var f := NormalizeSortField(field);
      if f != "" {
        r := Some(PostListSort(f, NormalizeSortDirection(sort[field])));
      }
      done := true;
      i := i + 1;
    }
  }

  /** A sort the handler chooses is never replaced by the repository's default: it orders by that column, in that direction. */
  lemma ChosenSortIsApplied(sort: map<string, string>, keys: seq<string>)
    requires forall k :: k in sort <==> k in keys
    requires ChosenSort(sort, keys).Some?
    ensures var s := ChosenSort(sort, keys).value;
      && ColumnName(SelectOrder(Some(s)).column) == NormalizeSortField(keys[0])
      && (SelectOrder(Some(s)).ascending <==> NormalizeSortDirection(sort[keys[0]]) == "asc")
  {
  }

  /** An absent or unrecognised sort leaves the newest-first order. */
  lemma UnchosenSortIsDefault(sort: map<string, string>, keys: seq<string>)
    requires forall k :: k in sort <==> k in keys
    requires ChosenSort(sort, keys).None?
    ensures SelectOrder(ChosenSort(sort, keys)) == DefaultOrder
  {
  }

  // ---- filters ------------------------------------------------------------

  /** A Go map read: the value, or "" when the key is absent. */
  function Lookup(m: map<string, string>, key: string): string {
    if key in m then m[key] else ""
  }

  function ErrInvalidFilterTime(field: string): string {
    "invalid " + field + ", expected RFC3339"
  }

  /**
   * One bound of the filters, with `parse` standing for time.Parse in the
   * RFC 3339 layout (None when the text does not parse).
   */
  function ParseBound(filters: map<string, string>, key: string, parse: string -> Option<Instant>): Result<Option<Instant>, string> {
    var v := TrimSpace(Lookup(filters, key));
    if v == "" then Success(None)
    else match parse(v)
      case None => Failure(ErrInvalidFilterTime(key))
      case Some(t) => Success(Some(t))
  }

  /** A bound is absent when blank after trimming, otherwise its parse, otherwise an error naming the key. */
  lemma ParseBoundShape(filters: map<string, string>, key: string, parse: string -> Option<Instant>)
    ensures var v, r := TrimSpace(Lookup(filters, key)), ParseBound(filters, key, parse);
      && (v == "" <==> r == Success(None))
      && (r.Failure? <==> v != "" && parse(v).None?)
      && (r.Failure? ==> r.error == ErrInvalidFilterTime(key))
      && (r.Success? && v != "" ==> r.value == parse(v))
  {
  }

  lemma EmptyFiltersHaveNoBound(filters: map<string, string>, key: string, parse: string -> Option<Instant>)
    requires |filters| == 0
    ensures ParseBound(filters, key, parse) == Success(None)
  {
    assert TrimSpace("") == "";
  }

  /** The two bounds, time_from parsed first, so that its error wins. */
  function ParseBounds(filters: map<string, string>, parse: string -> Option<Instant>): Result<PostListFilters, string> {
    match ParseBound(filters, "time_from", parse)
    case Failure(e) => Failure(e)
    case Success(timeFrom) =>
      match ParseBound(filters, "time_to", parse)
      case Failure(e) => Failure(e)
      case Success(timeTo) => Success(PostListFilters(timeFrom, timeTo))
  }

  /** parsePostListFilters: no filters at all, or the two bounds. */
  function ParsePostListFilters(filters: map<string, string>, parse: string -> Option<Instant>): (r: Result<PostListFilters, string>)
    ensures |filters| == 0 ==> r == Success(PostListFilters(None, None))
  {
    if |filters| == 0 then Success(PostListFilters(None, None)) else ParseBounds(filters, parse)
  }

  /** An empty filter map reads as two absent bounds. */
  lemma EmptyFiltersParsed(filters: map<string, string>, parse: string -> Option<Instant>)
    requires |filters| == 0
    ensures ParsePostListFilters(filters, parse) == ParseBounds(filters, parse)
  {
    EmptyFiltersHaveNoBound(filters, "time_from", parse);
    EmptyFiltersHaveNoBound(filters, "time_to", parse);
  }

  /**
   * The filters parse exactly when both bounds do, into those bounds; an
   * empty map is the same as two absent bounds, and time_from's error wins
   * over time_to's.
   */
  lemma FiltersParsed(filters: map<string, string>, parse: string -> Option<Instant>)
    ensures var r, from, to := ParsePostListFilters(filters, parse), ParseBound(filters, "time_from", parse), ParseBound(filters, "time_to", parse);
      && (from.Failure? ==> r == Failure(from.error))
      && (from.Success? && to.Failure? ==> r == Failure(to.error))
      && (r.Success? <==> from.Success? && to.Success?)
      && (r.Success? ==> r.value == PostListFilters(from.value, to.value))
  {
    if |filters| == 0 {
      EmptyFiltersParsed(filters, parse);
    }
  }

  /** The two error messages differ, so an error names the field that failed. */
  lemma FilterErrorsDistinct()
    ensures ErrInvalidFilterTime("time_from") != ErrInvalidFilterTime("time_to")
  {
    assert ErrInvalidFilterTime("time_from")[13] == 'f';
    assert ErrInvalidFilterTime("time_to")[13] == 't';
  }

  /** Blank bounds impose no constraint. */
  lemma BlankFiltersMatchAll(filters: map<string, string>, parse: string -> Option<Instant>, p: Post)
    requires TrimSpace(Lookup(filters, "time_from")) == "" && TrimSpace(Lookup(filters, "time_to")) == ""
    ensures ParsePostListFilters(filters, parse) == Success(PostListFilters(None, None))
    ensures InWindow(ParsePostListFilters(filters, parse).value, p)
  {
  }

  // ---- excerpt ------------------------------------------------------------

  const ExcerptLimit := 200

  /** excerptFromBody: the first line of the trimmed body, cut to 200 characters. */
  function ExcerptFromBody(body: string): (r: string)
    ensures |r| <= ExcerptLimit
  {
    var t := TrimSpace(body);
    if t == "" then "" else
      var idx := IndexByte(t, '\n');
      var line := if idx >= 0 then t[..idx] else t;
      if |line| <= ExcerptLimit then line else line[..ExcerptLimit]
  }

  /**
   * The excerpt is the longest prefix of the trimmed body that has no line
   * break and fits the limit.
   */
  lemma ExcerptShape(body: string)
    ensures var t, r := TrimSpace(body), ExcerptFromBody(body);
      && (t == "" ==> r == "")
      && |r| <= ExcerptLimit
      && (forall k | 0 <= k < |r| :: r[k] != '\n')
      && r <= t
      && (|r| < |t| ==> |r| == ExcerptLimit || t[|r|] == '\n')
  {
    var t := TrimSpace(body);
    if t != "" {
      var idx := IndexByte(t, '\n');
      var line := if idx >= 0 then t[..idx] else t;
      if |line| > ExcerptLimit {
        assert line[..ExcerptLimit] == t[..ExcerptLimit];
      }
    }
  }

  /** The excerpt is empty exactly when the body is blank. */
  lemma ExcerptEmpty(body: string)
    ensures ExcerptFromBody(body) == "" <==> AllSpace(body)
  {
    TrimSpaceEmpty(body);
    var t := TrimSpace(body);
    if t != "" {
      assert !IsSpace(t[0]);
    }
  }

  // ---- query parameters ---------------------------------------------------

  /** parseIntDefault: the decimal value of s, or def when s is empty or not an integer. */
  function ParseIntDefault(s: string, def: int64): (r: int64)
    ensures s == "" || Atoi(s).None? ==> r == def
    ensures Atoi(s).Some? ==> r == Atoi(s).value
  {
    if s == "" then def else
      match Atoi(s)
      case None => def
      case Some(v) => v
  }

  /** A written integer is read back whatever the default. */
  lemma ParseIntDefaultReadsBack(n: int64, def: int64)
    ensures ParseIntDefault(FormatInt(n), def) == n
  {
    AtoiFormatInt(n);
  }

  /** Text with a non-digit after its first character falls back to the default. */
  lemma ParseIntDefaultRejects(s: string, k: nat, def: int64)
    requires 0 < k < |s| && !IsDigit(s[k])
    ensures ParseIntDefault(s, def) == def
  {
    AtoiRejectsNonDigit(s, k);
  }

  // ---- paging arithmetic --------------------------------------------------

  const DefaultPageSize := 20

  /** A page number below 1 asks for the first page. */
  function NormalizePage(page: int64): (r: int64)
    ensures r >= 1
    ensures page <= 0 ==> r == 1
    ensures page >= 1 ==> r == page
  {
    if page <= 0 then 1 else page
  }

  /** A page size below 1 asks for 20 rows. */
  function NormalizePageSize(pageSize: int64): (r: int64)
    ensures r >= 1
    ensures pageSize <= 0 ==> r == DefaultPageSize
    ensures pageSize >= 1 ==> r == pageSize
  {
    if pageSize <= 0 then DefaultPageSize else pageSize
  }

  /** The offset of a page's first row, in exact arithmetic. */
  function Offset(page: int, pageSize: int): (offset: nat)
    requires page >= 1 && pageSize >= 1
    ensures offset + pageSize == page * pageSize
  {
    (page - 1) * pageSize
  }

  /** The offset as the handler computes it, in wrapping 64-bit arithmetic. */
  function OffsetAsWritten(page: int64, pageSize: int64): (offset: int64)
    ensures (offset - (page - 1) * pageSize) % 0x1_0000_0000_0000_0000 == 0
  {
    Wrap64((page - 1) * pageSize)
  }

  /** ⌈n / d⌉ */
  function CeilDiv(n: nat, d: int): (q: nat)
    requires d >= 1
    ensures q * d >= n
    ensures (q - 1) * d < n || q == 0
  {
    (n + d - 1) / d
  }

  /** totalPages as the handler computes it, in wrapping 64-bit arithmetic. */
  function TotalPagesAsWritten(total: int64, pageSize: int64): int64
    requires pageSize >= 1
  {
    Wrap64(Quot(Wrap64(total + pageSize - 1), pageSize))
  }

  /** Small inputs: the written offset is the exact one. */
  lemma OffsetAgrees(page: int64, pageSize: int64)
    requires page >= 1 && pageSize >= 1
    requires page * pageSize <= MaxInt64
    ensures OffsetAsWritten(page, pageSize) == Offset(page, pageSize)
  {
  }

  /** A huge page number wraps the written offset negative; the repository then serves the first page. */
  lemma OffsetOverflows()
    ensures OffsetAsWritten(0x4000_0000_0000_0001, 2) == MinInt64
    ensures Offset(0x4000_0000_0000_0001, 2) == 0x8000_0000_0000_0000
  {
  }

  /** Small inputs: the written total is the exact ceiling. */
  lemma TotalPagesAgrees(total: int64, pageSize: int64)
    requires total >= 0 && pageSize >= 1
    requires total + pageSize - 1 <= MaxInt64
    ensures TotalPagesAsWritten(total, pageSize) == CeilDiv(total, pageSize)
  {
    assert Quot(total + pageSize - 1, pageSize) == (total + pageSize - 1) / pageSize;
  }

  /** A huge page size wraps the written total negative. */
  lemma TotalPagesOverflows()
    ensures TotalPagesAsWritten(2, MaxInt64) == -1
    ensures CeilDiv(2, MaxInt64) == 1
  {
    assert Wrap64(2 + MaxInt64 - 1) == MinInt64;
    assert Quot(MinInt64, MaxInt64) == -1;
  }

  lemma TotalPagesExamples()
    ensures CeilDiv(0, 20) == 0 && CeilDiv(40, 20) == 2 && CeilDiv(41, 20) == 3
  {
  }

  lemma MulMonotone(a: int, b: int, d: nat)
    requires a <= b
    ensures a * d <= b * d
  {
    assert b * d - a * d == (b - a) * d;
  }

  /** The ceiling is the only count of d-blocks that covers n with less than a block to spare. */
  lemma CeilDivUnique(n: nat, d: int, q: nat)
    requires d >= 1 && q * d >= n && q * d < n + d
    ensures q == CeilDiv(n, d)
  {
    var c := CeilDiv(n, d);
    if q > c {
      MulMonotone(c + 1, q, d);
    } else if q < c {
      MulMonotone(q, c - 1, d);
    }
  }

  /** totalPages is the number of windows the rows fall into. */
  lemma TotalPagesCountsPages<T>(s: seq<T>, pageSize: int)
    requires pageSize >= 1
    ensures |Pages(s, pageSize, 0)| == CeilDiv(|s|, pageSize)
  {
    PagesCount(s, pageSize, 0);
    CeilDivUnique(|s|, pageSize, |Pages(s, pageSize, 0)|);
  }

  /** Page k (from 1) of the response is the k-th window. */
  lemma PageNumbering<T>(s: seq<T>, page: int, pageSize: int)
    requires pageSize >= 1 && 1 <= page <= CeilDiv(|s|, pageSize)
    ensures page - 1 < |Pages(s, pageSize, 0)| && Window(s, Offset(page, pageSize), pageSize) == Pages(s, pageSize, 0)[page - 1]
  {
    var k: nat := page - 1;
    TotalPagesCountsPages(s, pageSize);
    assert k < |Pages(s, pageSize, 0)|;
    PageAt(s, pageSize, 0, k);
    var o := Offset(page, pageSize);
    assert o == k * pageSize;
  }

  /** Past the last page the window is empty. */
  lemma PastLastPage<T>(s: seq<T>, page: int, pageSize: int)
    requires pageSize >= 1 && page > CeilDiv(|s|, pageSize)
    ensures Window(s, Offset(page, pageSize), pageSize) == []
  {
    var last := CeilDiv(|s|, pageSize);
    MulMonotone(last, page - 1, pageSize);
    assert Offset(page, pageSize) == (page - 1) * pageSize;
  }

  // ---- response items -----------------------------------------------------

  datatype PostListAuthor = PostListAuthor(id: string, name: string)
  datatype PostListStats = PostListStats(views: int, likes: int, stars: int, replies: int)
  datatype PostListFlag = PostListFlag(liked: bool, stared: bool)
  datatype PostListItem = PostListItem(
    id: string,
    title: string,
    excerpt: string,
    author: PostListAuthor,
    image: seq<string>,
    stats: PostListStats,
    createdAt: string,
    lastUpdatedAt: string,
    flag: PostListFlag)

  /** The author's user name when the author was found, else "". */
  function AuthorName(authors: map<string, User>, creatorId: string): string {
    if creatorId in authors then authors[creatorId].username else ""
  }

  function ImageUrls(images: seq<PostImage>): (urls: seq<string>)
    ensures |urls| == |images|
    ensures forall i :: 0 <= i < |images| ==> urls[i] == images[i].url
  {
    seq(|images|, i requires 0 <= i < |images| => images[i].url)
  }

  /** The list item of a post; `format` stands for RFC 3339 formatting of a time. */
  function ItemOf(p: Post, authors: map<string, User>, format: Instant -> string): PostListItem {
    PostListItem(
      p.id, p.title, ExcerptFromBody(p.body),
      PostListAuthor(p.creatorId, AuthorName(authors, p.creatorId)),
      ImageUrls(p.images),
      PostListStats(p.views, p.likes, p.stars, p.commentNumber),
      format(p.createdAt), format(p.updatedAt),
      PostListFlag(false, false))
  }

  function Items(posts: seq<Post>, authors: map<string, User>, format: Instant -> string): (items: seq<PostListItem>)
    ensures |items| == |posts|
    ensures forall i :: 0 <= i < |posts| ==> items[i] == ItemOf(posts[i], authors, format)
  {
    seq(|posts|, i requires 0 <= i < |posts| => ItemOf(posts[i], authors, format))
  }

  /** The inner loop of the shaping: the image URLs of one post, in order. */
  method CollectImageUrls(images: seq<PostImage>) returns (urls: seq<string>)
    ensures urls == ImageUrls(images)
  {
    urls := [];
    for j := 0 to |images|
      invariant |urls| == j
      invariant forall k :: 0 <= k < j ==> urls[k] == images[k].url
    {
      urls := urls + [images[j].url];
    }
  }

  /** The shaping loop of ListPostsByPage: one item per post, in order. */
  method BuildItems(posts: seq<Post>, authors: map<string, User>, format: Instant -> string) returns (data: seq<PostListItem>)
    ensures data == Items(posts, authors, format)
  {
    data := [];
    for i := 0 to |posts|
      invariant |data| == i
      invariant forall k :: 0 <= k < i ==> data[k] == ItemOf(posts[k], authors, format)
    {
      var p := posts[i];
      var authorName := "";
      if p.creatorId in authors {
        authorName := authors[p.creatorId].username;
      }
      var images := CollectImageUrls(p.images);
      var item := PostListItem(
        p.id, p.title, ExcerptFromBody(p.body),
        PostListAuthor(p.creatorId, authorName),
        images,
        PostListStats(p.views, p.likes, p.stars, p.commentNumber),
        format(p.createdAt), format(p.updatedAt),
        PostListFlag(false, false));
      assert item == ItemOf(p, authors, format);
      data := data + [item];
    }
  }

  /** An item names its author exactly when the author was found, and the name is that user's. */
  lemma ItemAuthor(p: Post, authors: map<string, User>, format: Instant -> string)
    requires forall id | id in authors :: authors[id].id == id
    ensures ItemOf(p, authors, format).author.id == p.creatorId
    ensures p.creatorId in authors ==> exists u :: u in authors.Values && u.id == p.creatorId && ItemOf(p, authors, format).author.name == u.username
    ensures p.creatorId !in authors ==> ItemOf(p, authors, format).author.name == ""
  {
    if p.creatorId in authors {
      assert authors[p.creatorId] in authors.Values;
    }
  }

  // ---- handlers -----------------------------------------------------------

  /** The decoded feed request; `sortKeys` is the order Go's map iteration visits `sort` in. */
  datatype PostListRequest = PostListRequest(page: int64, pageSize: int64, sort: map<string, string>, sortKeys: seq<string>, filters: map<string, string>)

  datatype PostListMeta = PostListMeta(page: int, pageSize: int, totalPages: int, sort: map<string, string>, filters: map<string, string>)
  datatype PostListResponse = PostListResponse(meta: PostListMeta, data: seq<PostListItem>)

  /** What the feed handler writes: 400 with a message, 500 with a message, or 200 with a body. */
  datatype ListOutcome = BadRequest(message: string) | ServerError(message: string) | Listed(response: PostListResponse)

  /** The repository query a well-formed request asks for. */
  function QueryOf(req: PostListRequest, filters: PostListFilters): PostListQuery
    requires forall k :: k in req.sort <==> k in req.sortKeys
  {
    var page, pageSize := NormalizePage(req.page), NormalizePageSize(req.pageSize);
    PostListQuery(pageSize, Offset(page, pageSize), filters, ChosenSort(req.sort, req.sortKeys))
  }

  /** The page number, the page size and the repository query of a request whose filters parsed. */
  method NormalizeQuery(req: PostListRequest, filters: PostListFilters) returns (page: int, pageSize: int, query: PostListQuery)
    requires forall k :: k in req.sort <==> k in req.sortKeys
    ensures page == NormalizePage(req.page) && pageSize == NormalizePageSize(req.pageSize)
    ensures query == QueryOf(req, filters)
  {
    page := req.page;
    if page <= 0 {
      page := 1;
    }
    pageSize := req.pageSize;
    if pageSize <= 0 {
      pageSize := DefaultPageSize;
    }
    var offset := Offset(page, pageSize);
    var sort := NormalizePostListSort(req.sort, req.sortKeys);
    query := PostListQuery(pageSize, offset, filters, sort);
  }

  /**
   * The response to a page query: 500 when the count or fetch fails or the
   * author lookup fails, otherwise 200 with the page's meta data (page
   * count by exact ceiling division) and one item per post.
   */
  ghost predicate Responds(out: ListOutcome, query: PostListQuery, page: int, pageSize: int, sort: map<string, string>,
                           filters: map<string, string>, rows: seq<Post>, fault: Fault, userRepo: Option<Users>,
                           format: Instant -> string)
    requires pageSize >= 1
  {
    && (!fault.Healthy? ==> out == ServerError("failed to fetch posts"))
    && (fault.Healthy? ==>
          var result := PageOf(rows, query);
          var ids := CreatorIds(result.posts);
          var authors := if userRepo.None? || ids == [] then Success(map[]) else GetByIds(userRepo.value, ids);
          && (authors.Failure? ==> out == ServerError("failed to fetch posts"))
          && (authors.Success? ==>
                out == Listed(PostListResponse(PostListMeta(page, pageSize, CeilDiv(result.total, pageSize), sort, filters),
                                               Items(result.posts, authors.value, format)))))
  }

  /** The response to one page query: 500 on any failure, else the page's meta data and items. */
  method RespondWithPage(query: PostListQuery, page: int, pageSize: int, sort: map<string, string>, filters: map<string, string>,
                         rows: seq<Post>, fault: Fault, userRepo: Option<Users>, format: Instant -> string) returns (out: ListOutcome)
    requires pageSize >= 1
    ensures Responds(out, query, page, pageSize, sort, filters, rows, fault, userRepo, format)
  {
    var result, err, _ := GetPostPage(rows, query, fault, userRepo);
    if err.Some? {
      return ServerError("failed to fetch posts");
    }
    var totalPages := CeilDiv(result.total, pageSize);
    var data := BuildItems(result.posts, result.authors, format);
    out := Listed(PostListResponse(PostListMeta(page, pageSize, totalPages, sort, filters), data));
  }

  /**
   * ListPostsByPage: normalises the request, queries one page with its
   * authors, and shapes it. An unparsable time filter is a 400 with its
   * message; otherwise the response is the one for the normalised query.
   * The offset and page count are computed exactly, without the 64-bit
   * wrap-around of the code as written.
   */
  method ListPostsByPage(req: PostListRequest, parse: string -> Option<Instant>, rows: seq<Post>, fault: Fault,
                         userRepo: Option<Users>, format: Instant -> string) returns (out: ListOutcome)
    requires forall k :: k in req.sort <==> k in req.sortKeys
    ensures var f := ParsePostListFilters(req.filters, parse);
      && (f.Failure? ==> out == BadRequest(f.error))
      && (f.Success? ==>
            Responds(out, QueryOf(req, f.value), NormalizePage(req.page), NormalizePageSize(req.pageSize),
                     req.sort, req.filters, rows, fault, userRepo, format))
  {
    var filters := ParsePostListFilters(req.filters, parse);
    if filters.Failure? {
      return BadRequest(filters.error);
    }
    var page, pageSize, query := NormalizeQuery(req, filters.value);
    out := RespondWithPage(query, page, pageSize, req.sort, req.filters, rows, fault, userRepo, format);
  }

  /** A listed page holds at most pageSize items, the meta page count covers every matching row, and the offset is never negative. */
  lemma ListedPageBounds(req: PostListRequest, filters: PostListFilters, rows: seq<Post>)
    requires forall k :: k in req.sort <==> k in req.sortKeys
    ensures |PageOf(rows, QueryOf(req, filters)).posts| <= NormalizePageSize(req.pageSize)
    ensures CeilDiv(PageOf(rows, QueryOf(req, filters)).total, NormalizePageSize(req.pageSize)) * NormalizePageSize(req.pageSize)
              >= |Filtered(rows, filters)|
    ensures QueryOf(req, filters).offset >= 0
  {
    PageBounds(rows, QueryOf(req, filters));
  }

  /** What the plain list handler writes: 500 with a message, or 200 with the posts. */
  datatype PostsOutcome = PostsFailed(message: string) | PostsListed(posts: seq<Post>)

  /** GetPosts: the `limit` and `offset` query parameters, defaulting to 20 and 0. */
  method GetPosts(limitParam: string, offsetParam: string, rows: seq<Post>, fetchFault: Option<string>) returns (out: PostsOutcome)
    ensures fetchFault.Some? ==> out == PostsFailed("failed to fetch posts")
    ensures fetchFault.None? ==>
      var limit, offset := ParseIntDefault(limitParam, 20), ParseIntDefault(offsetParam, 0);
      out == PostsListed(Window(SortBy(rows, DefaultOrder), if offset < 0 then 0 else offset, if limit <= 0 then DefaultLimit else limit))
  {
    var limit := ParseIntDefault(limitParam, 20);
    var offset := ParseIntDefault(offsetParam, 0);
    var posts, err := PostService.GetPosts(rows, limit, offset, fetchFault);
    if err.Some? {
      return PostsFailed("failed to fetch posts");
    }
    out := PostsListed(posts);
  }
}
