/**
 * The post service: post creation with input validation, and the page
 * query that adds the authors of the posts on the page.
 */
module PostService {
  import opened Wrappers
  import opened GoStrings
  import opened UserDomain
  import opened UserRepo
  import opened PostDomain
  import opened PostRepo

  // ---- author ids ---------------------------------------------------------

  /** The non-empty creator ids of the posts, each once, in the order first seen. */
  function CreatorIds(posts: seq<Post>): seq<string> {
    if posts == [] then [] else
      var ids := CreatorIds(posts[..|posts| - 1]);
      var c := posts[|posts| - 1].creatorId;
      if c == "" || c in ids then ids else ids + [c]
  }

  /** Some post has creator c. */
  predicate CreatedBy(posts: seq<Post>, c: string) {
    exists k :: 0 <= k < |posts| && posts[k].creatorId == c
  }

  /** c is listed exactly when it is the non-empty creator of some post. */
  lemma {:induction false} CreatorIdsMembers(posts: seq<Post>)
    ensures forall c :: c in CreatorIds(posts) <==> c != "" && CreatedBy(posts, c)
  {
    if posts != [] {
      var init := posts[..|posts| - 1];
      CreatorIdsMembers(init);
      forall c | CreatedBy(posts, c)
        ensures CreatedBy(init, c) || c == posts[|posts| - 1].creatorId
      {
        var k :| 0 <= k < |posts| && posts[k].creatorId == c;
        if k < |posts| - 1 {
          assert init[k].creatorId == c;
        }
      }
      forall c | CreatedBy(init, c)
        ensures CreatedBy(posts, c)
      {
        var k :| 0 <= k < |init| && init[k].creatorId == c;
        assert posts[k].creatorId == c;
      }
    }
  }

  /** No id is listed twice, and none is empty. */
  lemma {:induction false} CreatorIdsDistinct(posts: seq<Post>)
    ensures forall i, j :: 0 <= i < j < |CreatorIds(posts)| ==> CreatorIds(posts)[i] != CreatorIds(posts)[j]
    ensures forall i :: 0 <= i < |CreatorIds(posts)| ==> CreatorIds(posts)[i] != ""
  {
    if posts != [] {
      CreatorIdsDistinct(posts[..|posts| - 1]);
    }
  }

  /** First-seen order: every post by a later-listed author comes after some post by each earlier-listed one. */
  lemma {:induction false} CreatorIdsFirstSeen(posts: seq<Post>)
    ensures forall i, j, k :: 0 <= i < j < |CreatorIds(posts)| && 0 <= k < |posts| && posts[k].creatorId == CreatorIds(posts)[j] ==>
      exists m :: 0 <= m < k && posts[m].creatorId == CreatorIds(posts)[i]
  {
    var ids := CreatorIds(posts);
    forall i, j, k | 0 <= i < j < |ids| && 0 <= k < |posts| && posts[k].creatorId == ids[j]
      ensures exists m :: 0 <= m < k && posts[m].creatorId == ids[i]
    {
      FirstSeenBefore(posts, i, j, k);
    }
  }

  /** One instance of first-seen order: a post by the j-th author, j > i, has a post by the i-th before it. */
  lemma {:induction false} FirstSeenBefore(posts: seq<Post>, i: int, j: int, k: int)
    requires 0 <= i < j < |CreatorIds(posts)| && 0 <= k < |posts| && posts[k].creatorId == CreatorIds(posts)[j]
    ensures exists m :: 0 <= m < k && posts[m].creatorId == CreatorIds(posts)[i]
    decreases |posts|
  {
    var init := posts[..|posts| - 1];
    var last := |posts| - 1;
    var prev := CreatorIds(init);
    var ids := CreatorIds(posts);
    CreatorIdsMembers(init);
    assert ids[i] == prev[i];
    assert prev[i] in prev;
    if j == |prev| {
      // ids[j] is new: it is not the creator of any earlier post
      if k < last {
        assert false;
      }
      var m0 :| 0 <= m0 < |init| && init[m0].creatorId == prev[i];
      assert posts[m0].creatorId == ids[i];
    } else {
      assert ids[j] == prev[j];
      if k < last {
        assert init[k].creatorId == prev[j];
        FirstSeenBefore(init, i, j, k);
        var m :| 0 <= m < k && init[m].creatorId == prev[i];
        assert posts[m].creatorId == ids[i];
      } else {
        assert prev[j] in prev;
        var k0 :| 0 <= k0 < |init| && init[k0].creatorId == prev[j];
        FirstSeenBefore(init, i, j, k0);
        var m :| 0 <= m < k0 && init[m].creatorId == prev[i];
        assert posts[m].creatorId == ids[i];
      }
    }
  }

  /** The dedup loop of GetPostPage. */
  method CollectCreatorIds(posts: seq<Post>) returns (ids: seq<string>)
    ensures ids == CreatorIds(posts)
  {
    ids := [];
    var seen: set<string> := {};
    for i := 0 to |posts|
      invariant ids == CreatorIds(posts[..i])
      invariant seen == set c | c in ids
    {
      assert posts[..i + 1][..i] == posts[..i];
      var c := posts[i].creatorId;
      if c == "" {
        continue;
      }
      if c in seen {
        continue;
      }
      seen := seen + {c};
      ids := ids + [c];
    }
    assert posts[..|posts|] == posts;
  }

  // ---- page with authors --------------------------------------------------

  datatype PostPageResult = PostPageResult(posts: seq<Post>, total: nat, authors: map<string, User>)

  const EmptyPage := PostPageResult([], 0, map[])

  datatype PageError = ListFailed(message: string) | LookupFailed(cause: DbError)

  /**
   * GetPostPage: the repository's page, plus the authors of its posts looked
   * up in one call. `lookedUp` is the id list passed to the user repository,
   * if it was called.
   */
  method GetPostPage(rows: seq<Post>, q: PostListQuery, fault: Fault, userRepo: Option<Users>)
    returns (r: PostPageResult, err: Option<PageError>, lookedUp: Option<seq<string>>)
    ensures !fault.Healthy? ==> r == EmptyPage && err == Some(ListFailed(fault.message)) && lookedUp == None
    ensures fault.Healthy? ==>
      var page := PageOf(rows, q);
      var ids := CreatorIds(page.posts);
      && (userRepo.None? || ids == [] ==>
            lookedUp == None && err == None && r == PostPageResult(page.posts, page.total, map[]))
      && (userRepo.Some? && ids != [] ==>
            && lookedUp == Some(ids)
            && (GetByIds(userRepo.value, ids).Failure? ==>
                  r == EmptyPage && err == Some(LookupFailed(GetByIds(userRepo.value, ids).error)))
            && (GetByIds(userRepo.value, ids).Success? ==>
                  r == PostPageResult(page.posts, page.total, GetByIds(userRepo.value, ids).value) && err == None))
  {
    var result, listErr := ListPage(rows, q, fault);
    if listErr.Some? {
      return EmptyPage, Some(ListFailed(listErr.value)), None;
    }
    var ids := CollectCreatorIds(result.posts);
    var authors: map<string, User> := map[];
    lookedUp := None;
    if userRepo.Some? && |ids| > 0 {
      lookedUp := Some(ids);
      var found := GetByIds(userRepo.value, ids);
      if found.Failure? {
        return EmptyPage, Some(LookupFailed(found.error)), lookedUp;
      }
      authors := found.value;
    }
    r := PostPageResult(result.posts, result.total, authors);
    err := None;
  }

  /** Every author returned is keyed by its own id, and only listed ids are looked up. */
  lemma AuthorsAreCreators(rows: seq<Post>, q: PostListQuery, users: Users)
    requires GetByIds(users, CreatorIds(PageOf(rows, q).posts)).Success?
    ensures var ids := CreatorIds(PageOf(rows, q).posts);
      forall id | id in GetByIds(users, ids).value :: GetByIds(users, ids).value[id].id == id
    ensures forall c :: c in CreatorIds(PageOf(rows, q).posts) ==> c != "" && CreatedBy(PageOf(rows, q).posts, c)
  {
    CreatorIdsMembers(PageOf(rows, q).posts);
  }

  /** GetPosts passes the repository's List through. */
  method GetPosts(rows: seq<Post>, limit: int, offset: int, fetchFault: Option<string>) returns (posts: seq<Post>, err: Option<string>)
    ensures fetchFault.Some? ==> posts == [] && err == fetchFault
    ensures fetchFault.None? ==>
      && err == None
      && posts == Window(SortBy(rows, DefaultOrder), if offset < 0 then 0 else offset, if limit <= 0 then DefaultLimit else limit)
  {
    posts, err := List(rows, limit, offset, fetchFault);
  }

  // ---- post creation ------------------------------------------------------

  /** The image URLs a new post keeps: each trimmed, blank ones dropped, order kept. */
  function KeptUrls(urls: seq<string>): seq<string> {
    if urls == [] then [] else
      var kept := KeptUrls(urls[..|urls| - 1]);
      var u := TrimSpace(urls[|urls| - 1]);
      if u == "" then kept else kept + [u]
  }

  /** Filtering distributes over concatenation, so the relative order of URLs is kept. */
  lemma {:induction false} KeptUrlsAppend(a: seq<string>, b: seq<string>)
    ensures KeptUrls(a + b) == KeptUrls(a) + KeptUrls(b)
    decreases |b|
  {
    if b == [] {
      assert a + b == a;
    } else {
      var b' := b[..|b| - 1];
      assert (a + b)[..|a + b| - 1] == a + b';
      KeptUrlsAppend(a, b');
    }
  }

  /** Some given URL trims to u. */
  predicate TrimsTo(urls: seq<string>, u: string) {
    exists k :: 0 <= k < |urls| && TrimSpace(urls[k]) == u
  }

  /** A kept URL is the non-blank trimmed form of some given URL, and every such form is kept. */
  lemma {:induction false} KeptUrlsMembers(urls: seq<string>)
    ensures forall u :: u in KeptUrls(urls) <==> u != "" && TrimsTo(urls, u)
  {
    if urls != [] {
      var init := urls[..|urls| - 1];
      var last := TrimSpace(urls[|urls| - 1]);
      KeptUrlsMembers(init);
      forall u | u != "" && TrimsTo(urls, u)
        ensures u in KeptUrls(urls)
      {
        var k :| 0 <= k < |urls| && TrimSpace(urls[k]) == u;
        if k < |urls| - 1 {
          assert TrimSpace(init[k]) == u;
          assert TrimsTo(init, u);
        }
      }
      forall u | u in KeptUrls(urls)
        ensures u != "" && TrimsTo(urls, u)
      {
        if u in KeptUrls(init) {
          var k :| 0 <= k < |init| && TrimSpace(init[k]) == u;
          assert TrimSpace(urls[k]) == u;
        } else {
          assert u == last;
          assert TrimSpace(urls[|urls| - 1]) == u;
        }
      }
    }
  }

  /** Every kept URL is non-blank and carries no surrounding white space. */
  lemma {:induction false} KeptUrlsTrimmed(urls: seq<string>)
    ensures forall i :: 0 <= i < |KeptUrls(urls)| ==> KeptUrls(urls)[i] != "" && Unpadded(KeptUrls(urls)[i])
  {
    if urls != [] {
      KeptUrlsTrimmed(urls[..|urls| - 1]);
      TrimSpaceIdempotent(urls[|urls| - 1]);
    }
  }

  /** The image records a new post gets for its URLs (ids and timestamps are assigned by the database). */
  function ImagesOf(urls: seq<string>): (images: seq<PostImage>)
    ensures |images| == |urls|
    ensures forall i :: 0 <= i < |urls| ==> images[i].url == urls[i]
  {
    seq(|urls|, i requires 0 <= i < |urls| => PostImage("", "", urls[i], 0))
  }

  /** The image loop of CreatePost: one image per kept URL, in order. */
  method CollectImages(imageUrls: seq<string>) returns (images: seq<PostImage>)
    ensures images == ImagesOf(KeptUrls(imageUrls))
  {
    images := [];
    for i := 0 to |imageUrls|
      invariant images == ImagesOf(KeptUrls(imageUrls[..i]))
    {
      assert imageUrls[..i + 1][..i] == imageUrls[..i];
      var u := TrimSpace(imageUrls[i]);
      if u == "" {
        continue;
      }
      images := images + [PostImage("", "", u, 0)];
    }
    assert imageUrls[..|imageUrls|] == imageUrls;
  }

  /**
   * CreatePost: the title, body and creator id are trimmed and must be
   * non-blank, checked in that order; the new post keeps the non-blank
   * trimmed image URLs. `createFault` is a failing insert.
   */
  method CreatePost(title: string, body: string, creatorId: string, imageUrls: seq<string>, createFault: Option<string>)
    returns (p: Post, err: Option<string>)
    ensures var t, b, c := TrimSpace(title), TrimSpace(body), TrimSpace(creatorId);
      && (t == "" ==> p == NoPost && err == Some("title is required"))
      && (t != "" && b == "" ==> p == NoPost && err == Some("body is required"))
      && (t != "" && b != "" && c == "" ==> p == NoPost && err == Some("creator_id is required"))
      && (t != "" && b != "" && c != "" && createFault.Some? ==> p == NoPost && err == createFault)
      && (err == None <==> t != "" && b != "" && c != "" && createFault.None?)
      && (err == None ==> p == Post("", t, b, ImagesOf(KeptUrls(imageUrls)), c, 0, 0, 0, 0, 0, 0))
  {
    var t, b, c := TrimSpace(title), TrimSpace(body), TrimSpace(creatorId);
    if t == "" {
      return NoPost, Some("title is required");
    }
    if b == "" {
      return NoPost, Some("body is required");
    }
    if c == "" {
      return NoPost, Some("creator_id is required");
    }
    var images := CollectImages(imageUrls);
    if createFault.Some? {
      return NoPost, createFault;
    }
    p := Post("", t, b, images, c, 0, 0, 0, 0, 0, 0);
    err := None;
  }
}
