/**
 * The post repository's query semantics. The table is an abstract sequence
 * of rows in storage order; a query keeps the rows its WHERE conditions
 * admit, orders them, and returns a LIMIT/OFFSET window. The database can
 * fail either of the two statements it runs.
 */
module PostRepo {
  import opened Wrappers
  import opened GoTypes
  import opened PostDomain

  datatype PostListFilters = PostListFilters(timeFrom: Option<Instant>, timeTo: Option<Instant>)
  datatype PostListSort = PostListSort(field: string, direction: string)
  datatype PostListQuery = PostListQuery(limit: int, offset: int, filters: PostListFilters, sort: Option<PostListSort>)
  datatype PostListResult = PostListResult(posts: seq<Post>, total: nat)

  /** The zero result returned beside an error. */
  const EmptyResult := PostListResult([], 0)

  /** Which statement of a query, if any, the database fails. */
  datatype Fault = Healthy | CountFails(message: string) | FetchFails(message: string)

  const DefaultLimit := 20

  // ---- filtering ----------------------------------------------------------

  /** A WHERE condition on created_at. */
  datatype Condition = CreatedAtLeast(from: Instant) | CreatedAtMost(to: Instant)

  predicate Holds(c: Condition, p: Post) {
    match c
    case CreatedAtLeast(from) => p.createdAt >= from
    case CreatedAtMost(to) => p.createdAt <= to
  }

  predicate HoldsAll(conds: seq<Condition>, p: Post) {
    forall i :: 0 <= i < |conds| ==> Holds(conds[i], p)
  }

  /** The rows, in storage order, that satisfy every condition. */
  function Where(rows: seq<Post>, conds: seq<Condition>): seq<Post> {
    if rows == [] then [] else
      var rest := Where(rows[1..], conds);
      if HoldsAll(conds, rows[0]) then [rows[0]] + rest else rest
  }

  /** The time window the filters describe: both ends inclusive, an absent end unbounded. */
  predicate InWindow(f: PostListFilters, p: Post) {
    && (f.timeFrom.Some? ==> p.createdAt >= f.timeFrom.value)
    && (f.timeTo.Some? ==> p.createdAt <= f.timeTo.value)
  }

  /** The rows, in storage order, inside the filters' window. */
  function Filtered(rows: seq<Post>, f: PostListFilters): (r: seq<Post>)
    ensures |r| <= |rows|
    ensures forall p :: p in r <==> p in rows && InWindow(f, p)
  {
    if rows == [] then [] else
      var rest := Filtered(rows[1..], f);
      if InWindow(f, rows[0]) then [rows[0]] + rest else rest
  }

  /** Filtering distributes over concatenation: the kept rows stay in storage order. */
  lemma {:induction false} FilteredAppend(a: seq<Post>, b: seq<Post>, f: PostListFilters)
    ensures Filtered(a + b, f) == Filtered(a, f) + Filtered(b, f)
  {
    if a != [] {
      assert (a + b)[1..] == a[1..] + b;
      FilteredAppend(a[1..], b, f);
    } else {
      assert a + b == b;
    }
  }

  /** Conditions that admit exactly the window's rows select exactly the filtered rows. */
  lemma {:induction false} WhereIsFiltered(rows: seq<Post>, conds: seq<Condition>, f: PostListFilters)
    requires forall p :: HoldsAll(conds, p) <==> InWindow(f, p)
    ensures Where(rows, conds) == Filtered(rows, f)
  {
    if rows != [] {
      WhereIsFiltered(rows[1..], conds, f);
    }
  }

  /** The conditions ListPage adds for the given filters, in the order it adds them. */
  method FilterConditions(f: PostListFilters) returns (conds: seq<Condition>)
    ensures forall p :: HoldsAll(conds, p) <==> InWindow(f, p)
    ensures |conds| <= 2
  {
    conds := [];
    if f.timeFrom.Some? {
      conds := conds + [CreatedAtLeast(f.timeFrom.value)];
    }
    if f.timeTo.Some? {
      conds := conds + [CreatedAtMost(f.timeTo.value)];
    }
    forall p
      ensures HoldsAll(conds, p) <==> InWindow(f, p)
    {
      if f.timeFrom.Some? {
        assert Holds(conds[0], p) <==> p.createdAt >= f.timeFrom.value;
      }
      if f.timeTo.Some? {
        assert Holds(conds[|conds| - 1], p) <==> p.createdAt <= f.timeTo.value;
      }
    }
  }

  // ---- ordering -----------------------------------------------------------

  /** The sortable columns. */
  datatype Column = CreatedAt | Views | Likes | Stars | CommentNumber

  datatype Order = Order(column: Column, ascending: bool)

  /** `created_at DESC` */
  const DefaultOrder := Order(CreatedAt, false)

  /** The whitelist of sort fields the repository puts into an ORDER BY. */
  function ColumnNamed(name: string): (c: Option<Column>)
    ensures c.Some? <==> name in {"created_at", "views", "likes", "stars", "comment_number"}
    ensures c.Some? ==> ColumnName(c.value) == name
  {
    if name == "created_at" then Some(CreatedAt)
    else if name == "views" then Some(Views)
    else if name == "likes" then Some(Likes)
    else if name == "stars" then Some(Stars)
    else if name == "comment_number" then Some(CommentNumber)
    else None
  }

  function ColumnName(c: Column): string {
    match c
    case CreatedAt => "created_at"
    case Views => "views"
    case Likes => "likes"
    case Stars => "stars"
    case CommentNumber => "comment_number"
  }

  /** The ORDER BY text of an order. */
  function OrderClause(o: Order): string {
    ColumnName(o.column) + (if o.ascending then " ASC" else " DESC")
  }

  /** The order a query's sort selects. */
  function SelectOrder(sort: Option<PostListSort>): (o: Order)
    ensures sort.None? || ColumnNamed(sort.value.field).None? ==> o == DefaultOrder
    ensures sort.Some? && ColumnNamed(sort.value.field).Some? ==>
      ColumnName(o.column) == sort.value.field && (o.ascending <==> sort.value.direction == "asc")
  {
    if sort.None? || sort.value.field == "" then DefaultOrder
    else
      var ascending := sort.value.direction == "asc";
      match ColumnNamed(sort.value.field)
      case Some(c) => Order(c, ascending)
      case None => DefaultOrder
  }

  lemma DefaultOrderClause()
    ensures OrderClause(DefaultOrder) == "created_at DESC"
  {
  }

  /** The sort key of a row for a column. */
  function Key(p: Post, c: Column): int {
    match c
    case CreatedAt => p.createdAt
    case Views => p.views
    case Likes => p.likes
    case Stars => p.stars
    case CommentNumber => p.commentNumber
  }

  /** a may come before b under the order. */
  predicate Precedes(o: Order, a: Post, b: Post) {
    if o.ascending then Key(a, o.column) <= Key(b, o.column) else Key(a, o.column) >= Key(b, o.column)
  }

  predicate Ordered(s: seq<Post>, o: Order) {
    forall i, j :: 0 <= i < j < |s| ==> Precedes(o, s[i], s[j])
  }

  /** A row that may come before every row of an ordered sequence can be put in front of it. */
  lemma ConsOrdered(x: Post, t: seq<Post>, o: Order)
    requires Ordered(t, o)
    requires forall i :: 0 <= i < |t| ==> Precedes(o, x, t[i])
    ensures Ordered([x] + t, o)
  {
    var r := [x] + t;
    forall i, j | 0 <= i < j < |r|
      ensures Precedes(o, r[i], r[j])
    {
      assert r[j] == t[j - 1];
      if i > 0 {
        assert r[i] == t[i - 1];
      }
    }
  }

  /** The head of an ordered sequence may come before any rearrangement of its tail with a later row added. */
  lemma HeadPrecedesRest(p: Post, s: seq<Post>, o: Order, rest: seq<Post>)
    requires Ordered(s, o) && s != [] && !Precedes(o, p, s[0])
    requires multiset(rest) == multiset(s[1..]) + multiset{p}
    ensures forall i :: 0 <= i < |rest| ==> Precedes(o, s[0], rest[i])
  {
    forall i | 0 <= i < |rest|
      ensures Precedes(o, s[0], rest[i])
    {
      assert rest[i] in multiset(rest);
      if rest[i] != p {
        assert rest[i] in multiset(s[1..]);
        var k :| 0 <= k < |s[1..]| && s[1..][k] == rest[i];
        assert s[k + 1] == rest[i];
      }
    }
  }

  function Insert(p: Post, s: seq<Post>, o: Order): (r: seq<Post>)
    requires Ordered(s, o)
    ensures Ordered(r, o)
    ensures multiset(r) == multiset(s) + multiset{p}
  {
    if s == [] || Precedes(o, p, s[0]) then
      assert forall i :: 0 <= i < |s| ==> Precedes(o, s[0], s[i]) ==> Precedes(o, p, s[i]);
      ConsOrdered(p, s, o);
      [p] + s
    else
      var rest := Insert(p, s[1..], o);
      assert multiset(s) == multiset{s[0]} + multiset(s[1..]) by {
        assert s == [s[0]] + s[1..];
      }
      HeadPrecedesRest(p, s, o, rest);
      ConsOrdered(s[0], rest, o);
      [s[0]] + rest
  }

  /** The rows ordered by the order's key; rows with equal keys keep their storage order. */
  function SortBy(rows: seq<Post>, o: Order): (r: seq<Post>)
    ensures Ordered(r, o)
    ensures multiset(r) == multiset(rows)
  {
    if rows == [] then [] else
      assert rows == [rows[0]] + rows[1..];
      Insert(rows[0], SortBy(rows[1..], o), o)
  }

  // ---- paging -------------------------------------------------------------

  /** LIMIT limit OFFSET offset over an ordered result. */
  function Window<T>(s: seq<T>, offset: nat, limit: nat): (r: seq<T>)
    ensures |r| == if offset >= |s| then 0 else if |s| - offset < limit then |s| - offset else limit
    ensures forall i :: 0 <= i < |r| ==> r[i] == s[offset + i]
  {
    if offset >= |s| then [] else if |s| - offset < limit then s[offset..] else s[offset..offset + limit]
  }

  /** The rows a page query returns when the database does not fail. */
  function PageOf(rows: seq<Post>, q: PostListQuery): PostListResult {
    var limit := if q.limit <= 0 then DefaultLimit else q.limit;
    var offset := if q.offset < 0 then 0 else q.offset;
    var matching := Filtered(rows, q.filters);
    PostListResult(Window(SortBy(matching, SelectOrder(q.sort)), offset, limit), |matching|)
  }

  /**
   * ListPage: clamps the limit and offset, restricts to the filter window,
   * counts the matching rows, and fetches one ordered window of them.
   */
  method ListPage(rows: seq<Post>, q: PostListQuery, fault: Fault) returns (r: PostListResult, err: Option<string>)
    ensures fault.Healthy? ==> r == PageOf(rows, q) && err == None
    ensures fault.CountFails? ==> r == EmptyResult && err == Some(fault.message)
    ensures fault.FetchFails? ==> r == EmptyResult && err == Some(fault.message)
  {
    var limit, offset := q.limit, q.offset;
    if limit <= 0 {
      limit := DefaultLimit;
    }
    if offset < 0 {
      offset := 0;
    }
    var conds := FilterConditions(q.filters);
    var matching := Where(rows, conds);
    WhereIsFiltered(rows, conds, q.filters);
    var total := |matching|;
    if fault.CountFails? {
      return EmptyResult, Some(fault.message);
    }
    var order := SelectOrder(q.sort);
    if fault.FetchFails? {
      return EmptyResult, Some(fault.message);
    }
    r := PostListResult(Window(SortBy(matching, order), offset, limit), total);
    err := None;
  }

  /** List: the newest rows first, one clamped window of them; `fetchFault` is a failing fetch. */
  method List(rows: seq<Post>, limit: int, offset: int, fetchFault: Option<string>) returns (posts: seq<Post>, err: Option<string>)
    ensures fetchFault.Some? ==> posts == [] && err == fetchFault
    ensures fetchFault.None? ==>
      && err == None
      && posts == Window(SortBy(rows, DefaultOrder), if offset < 0 then 0 else offset, if limit <= 0 then DefaultLimit else limit)
  {
    var l, o := limit, offset;
    if l <= 0 {
      l := DefaultLimit;
    }
    if o < 0 {
      o := 0;
    }
    if fetchFault.Some? {
      return [], fetchFault;
    }
    posts := Window(SortBy(rows, DefaultOrder), o, l);
    err := None;
  }

  // ---- properties of a page -----------------------------------------------

  /** A page holds at most the clamped limit, and the total counts every matching row. */
  lemma PageBounds(rows: seq<Post>, q: PostListQuery)
    ensures |PageOf(rows, q).posts| <= if q.limit <= 0 then DefaultLimit else q.limit
    ensures PageOf(rows, q).total == |Filtered(rows, q.filters)|
    ensures PageOf(rows, q).total <= |rows|
  {
  }

  /** A window of an ordered sequence is ordered. */
  lemma WindowKeepsOrder(s: seq<Post>, offset: nat, limit: nat, o: Order)
    requires Ordered(s, o)
    ensures Ordered(Window(s, offset, limit), o)
  {
    var r := Window(s, offset, limit);
    forall i, j | 0 <= i < j < |r|
      ensures Precedes(o, r[i], r[j])
    {
      assert r[i] == s[offset + i] && r[j] == s[offset + j];
    }
  }

  /** A window holds only elements of the sequence it is cut from. */
  lemma WindowRows<T>(s: seq<T>, offset: nat, limit: nat)
    ensures forall x :: x in Window(s, offset, limit) ==> x in s
  {
    var r := Window(s, offset, limit);
    forall x | x in r
      ensures x in s
    {
      var i :| 0 <= i < |r| && r[i] == x;
      assert s[offset + i] == x;
    }
  }

  /** Every row on a page is a stored row inside the filter window, and pages follow the order. */
  lemma PageRowsMatch(rows: seq<Post>, q: PostListQuery)
    ensures forall p :: p in PageOf(rows, q).posts ==> p in rows && InWindow(q.filters, p)
    ensures Ordered(PageOf(rows, q).posts, SelectOrder(q.sort))
  {
    var matching := Filtered(rows, q.filters);
    var sorted := SortBy(matching, SelectOrder(q.sort));
    var offset := if q.offset < 0 then 0 else q.offset;
    var limit := if q.limit <= 0 then DefaultLimit else q.limit;
    WindowRows(sorted, offset, limit);
    WindowKeepsOrder(sorted, offset, limit, SelectOrder(q.sort));
    forall p | p in sorted
      ensures p in matching
    {
      assert p in multiset(sorted);
    }
  }

  /** A query without filters counts every stored row. */
  lemma UnfilteredTotal(rows: seq<Post>, q: PostListQuery)
    requires q.filters == PostListFilters(None, None)
    ensures PageOf(rows, q).total == |rows|
    ensures Filtered(rows, q.filters) == rows
  {
    FilteredAll(rows, q.filters);
  }

  lemma {:induction false} FilteredAll(rows: seq<Post>, f: PostListFilters)
    requires f == PostListFilters(None, None)
    ensures Filtered(rows, f) == rows
  {
    if rows != [] {
      FilteredAll(rows[1..], f);
      assert rows == [rows[0]] + rows[1..];
    }
  }

  /** The consecutive windows of `size` rows starting at `offset`. */
  function Pages<T>(s: seq<T>, size: nat, offset: nat): seq<seq<T>>
    requires size > 0
    decreases |s| - offset
  {
    if offset >= |s| then [] else [Window(s, offset, size)] + Pages(s, size, offset + size)
  }

  function Flatten<T>(pages: seq<seq<T>>): seq<T> {
    if pages == [] then [] else pages[0] + Flatten(pages[1..])
  }

  /** The rows of the windows from `offset` on: the first window, then those after it. */
  lemma PagesStep<T>(s: seq<T>, size: nat, offset: nat)
    requires size > 0 && offset < |s|
    ensures Flatten(Pages(s, size, offset)) == Window(s, offset, size) + Flatten(Pages(s, size, offset + size))
  {
    var pages := Pages(s, size, offset);
    assert pages == [Window(s, offset, size)] + Pages(s, size, offset + size);
    assert pages[1..] == Pages(s, size, offset + size);
  }

  /** Walking the windows from `offset` on yields every remaining row once, in order. */
  lemma {:induction false} PagesCover<T>(s: seq<T>, size: nat, offset: nat)
    requires size > 0 && offset <= |s|
    ensures Flatten(Pages(s, size, offset)) == s[offset..]
    decreases |s| - offset
  {
    if offset < |s| {
      PagesStep(s, size, offset);
      if |s| - offset < size {
        assert Pages(s, size, offset + size) == [];
        assert Window(s, offset, size) == s[offset..];
      } else {
        PagesCover(s, size, offset + size);
        assert Window(s, offset, size) == s[offset..offset + size];
        assert s[offset..] == s[offset..offset + size] + s[offset + size..];
      }
    }
  }

  /** A non-empty walk of windows is the window at offset followed by the walk from the next offset. */
  lemma PagesUnfold<T>(s: seq<T>, size: nat, offset: nat)
    requires size > 0 && offset < |s|
    ensures |Pages(s, size, offset)| == |Pages(s, size, offset + size)| + 1
    ensures Pages(s, size, offset)[0] == Window(s, offset, size)
    ensures Pages(s, size, offset)[1..] == Pages(s, size, offset + size)
  {
  }

  /** The windows from `offset` on number one per started block of `size` rows. */
  lemma {:induction false} PagesCount<T>(s: seq<T>, size: nat, offset: nat)
    requires size > 0 && offset <= |s|
    ensures |Pages(s, size, offset)| * size >= |s| - offset
    ensures |Pages(s, size, offset)| * size < |s| - offset + size
    decreases |s| - offset
  {
    if offset < |s| {
      PagesUnfold(s, size, offset);
      var n := |Pages(s, size, offset + size)|;
      if offset + size <= |s| {
        PagesCount(s, size, offset + size);
        assert (n + 1) * size == n * size + size;
      } else {
        assert Pages(s, size, offset + size) == [];
        assert n + 1 == 1;
      }
    }
  }

  /** The k-th window is the one at offset + k * size. */
  lemma {:induction false} PageAt<T>(s: seq<T>, size: nat, offset: nat, k: nat)
    requires size > 0 && k < |Pages(s, size, offset)|
    ensures Pages(s, size, offset)[k] == Window(s, offset + k * size, size)
    decreases k
  {
    PagesUnfold(s, size, offset);
    if k > 0 {
      var pages, rest := Pages(s, size, offset), Pages(s, size, offset + size);
      assert pages[k] == rest[k - 1];
      PageAt(s, size, offset + size, k - 1);
      NextBlock(offset, size, k);
    }
  }

  lemma NextBlock(offset: nat, size: nat, k: nat)
    requires k > 0
    ensures offset + size + (k - 1) * size == offset + k * size
  {
  }
}
