/** The post operations as functions over the committed state: creating,
    editing and deleting posts, liking and unliking them, and the listings
    (all posts, one author's posts, the feed, trending). */
module PostModel {
  import opened Common
  import opened State
  import PostRepository
  import NotificationModel

  /** The trending window: 24 hours, in seconds. */
  const TrendingWindow: int := 24 * 60 * 60

  /** What the service hands back for one post. */
  datatype PostView = PostView(
    id: PostId,
    author: UserId,
    content: string,
    likesCount: int,
    commentsCount: int,
    sharesCount: int,
    createdAt: Time,
    isLiked: Option<bool>)

  /** The view of `p` as seen by `viewer`: `isLiked` is filled in exactly when
      there is a viewer, and says whether that viewer likes the post. */
  function PostViewOf(s: DbState, p: PostRow, viewer: Option<UserId>): (v: PostView)
    ensures v.id == p.id && v.author == p.author && v.content == p.content && v.createdAt == p.createdAt
    ensures v.likesCount == p.likesCount && v.commentsCount == p.commentsCount && v.sharesCount == p.sharesCount
    ensures v.isLiked.Some? <==> viewer.Some?
    ensures v.isLiked.Some? ==> (v.isLiked.value <==> (viewer.value, p.id) in s.likes)
  {
    PostView(p.id, p.author, p.content, p.likesCount, p.commentsCount, p.sharesCount, p.createdAt,
             if viewer.Some? then Some((viewer.value, p.id) in s.likes) else None)
  }

  function ViewsOf(s: DbState, ps: seq<PostRow>, viewer: Option<UserId>): (r: seq<PostView>)
    ensures |r| == |ps|
    ensures forall i :: 0 <= i < |ps| ==> r[i] == PostViewOf(s, ps[i], viewer)
  {
    seq(|ps|, i requires 0 <= i < |ps| => PostViewOf(s, ps[i], viewer))
  }

  /** Each view is the view, for `viewer`, of the stored post under its identity. */
  ghost predicate ViewsStored(s: DbState, r: seq<PostView>, viewer: Option<UserId>)
  {
    forall i :: 0 <= i < |r| ==> r[i].id in s.posts && r[i] == PostViewOf(s, s.posts[r[i].id], viewer)
  }

  /** No two stored posts written by `authors` were created at the same time. */
  ghost predicate CreatedApart(s: DbState, authors: set<UserId>)
  {
    forall a, b ::
      (a in s.posts && b in s.posts && a != b && s.posts[a].author in authors && s.posts[b].author in authors) ==>
        s.posts[a].createdAt != s.posts[b].createdAt
  }

  /** Views listed newest first. */
  predicate NewestFirst(r: seq<PostView>)
  {
    forall i, j :: 0 <= i < j < |r| ==> r[i].createdAt >= r[j].createdAt
  }

  /** Views listed most liked first, newest first among equally liked ones. */
  predicate MostLikedFirst(r: seq<PostView>)
  {
    forall i, j :: 0 <= i < j < |r| ==>
      r[i].likesCount > r[j].likesCount ||
      (r[i].likesCount == r[j].likesCount && r[i].createdAt >= r[j].createdAt)
  }

  // ---------------------------------------------------------------- writes

  function CreatePost(s: DbState, caller: Option<UserId>, content: string, now: Time): (r: Outcome<PostView>)
    ensures r.Err? <==> caller.None? || caller.value !in s.users
    ensures r.Err? ==> r.error == NotFound
    ensures r.Ok? ==>
      var id, t := s.nextPostId, r.value.1;
      && t.posts == s.posts[id := PostRow(id, caller.value, content, 0, 0, 0, now)]
      && t == s.(posts := t.posts, nextPostId := id + 1)
      && r.value.0 == PostViewOf(t, t.posts[id], caller)
  {
    match caller
    case None => Err(NotFound)
    case Some(me) =>
      if me !in s.users then Err(NotFound)
      else
        var id := s.nextPostId;
        var t := s.(posts := s.posts[id := PostRow(id, me, content, 0, 0, 0, now)], nextPostId := id + 1);
        Ok((PostViewOf(t, t.posts[id], caller), t))
  }

  function UpdatePost(s: DbState, caller: Option<UserId>, id: PostId, content: string): (r: Outcome<PostView>)
    ensures caller.None? ==> r == Err(NotFound)
    ensures caller.Some? && id !in s.posts ==> r == Err(NotFound)
    ensures caller.Some? && id in s.posts && s.posts[id].author != caller.value ==> r == Err(BadRequest)
    ensures r.Ok? <==> caller.Some? && id in s.posts && s.posts[id].author == caller.value
    ensures r.Ok? ==>
      var t := r.value.1;
      && t == s.(posts := s.posts[id := s.posts[id].(content := content)])
      && r.value.0 == PostViewOf(t, t.posts[id], caller)
  {
    match caller
    case None => Err(NotFound)
    case Some(me) =>
      if id !in s.posts then Err(NotFound)
      else if s.posts[id].author != me then Err(BadRequest)
      else
        var t := s.(posts := s.posts[id := s.posts[id].(content := content)]);
        Ok((PostViewOf(t, t.posts[id], caller), t))
  }

  /** Deleting a post deletes its likes and its comments with it. */
  function DeletePost(s: DbState, caller: Option<UserId>, id: PostId): (r: Outcome<()>)
    ensures caller.None? ==> r == Err(NotFound)
    ensures caller.Some? && id !in s.posts ==> r == Err(NotFound)
    ensures caller.Some? && id in s.posts && s.posts[id].author != caller.value ==> r == Err(BadRequest)
    ensures r.Ok? <==> caller.Some? && id in s.posts && s.posts[id].author == caller.value
    ensures r.Ok? ==>
      var t := r.value.1;
      && t.posts == s.posts - {id}
      && (forall l :: l in t.likes <==> l in s.likes && l.1 != id)
      && (forall c :: c in t.comments <==> c in s.comments && s.comments[c].post != id)
      && (forall c :: c in t.comments ==> t.comments[c] == s.comments[c])
      && t == s.(posts := t.posts, likes := t.likes, comments := t.comments)
  {
    match caller
    case None => Err(NotFound)
    case Some(me) =>
      if id !in s.posts then Err(NotFound)
      else if s.posts[id].author != me then Err(BadRequest)
      else
        Ok(((), s.(posts := s.posts - {id},
                   likes := (set l | l in s.likes && l.1 != id),
                   comments := (map c | c in s.comments && s.comments[c].post != id :: s.comments[c]))))
  }

  /** The like row saved and the post's counter raised. */
  function AddLike(s: DbState, u: UserId, id: PostId): DbState
    requires id in s.posts
  {
    s.(likes := s.likes + {(u, id)},
       posts := s.posts[id := s.posts[id].(likesCount := s.posts[id].likesCount + 1)])
  }

  function LikePost(s: DbState, caller: Option<UserId>, id: PostId): (r: Outcome<PostView>)
    ensures caller.None? ==> r == Err(NotFound)
    ensures caller.Some? && (id !in s.posts || caller.value !in s.users) ==> r == Err(NotFound)
    ensures (caller.Some? && id in s.posts && caller.value in s.users && (caller.value, id) in s.likes) ==>
      r == Err(BadRequest)
    ensures r.Ok? <==> caller.Some? && id in s.posts && caller.value in s.users && (caller.value, id) !in s.likes
    ensures r.Ok? ==>
      var me, t := caller.value, r.value.1;
      var s1 := s.(likes := t.likes, posts := t.posts);
      && id in s.posts && me in s.users && (me, id) !in s.likes
      && t.likes == s.likes + {(me, id)}
      && t.posts == s.posts[id := s.posts[id].(likesCount := s.posts[id].likesCount + 1)]
      && (s.posts[id].author != me ==>
            NotificationModel.CreatedOne(s1, t, Like, me, s.posts[id].author, Some(id), None))
      && (s.posts[id].author == me ==> t == s1)
      && r.value.0 == PostViewOf(t, t.posts[id], caller)
  {
    match caller
    case None => Err(NotFound)
    case Some(me) =>
      if id !in s.posts then Err(NotFound)
      else if me !in s.users then Err(NotFound)
      else if (me, id) in s.likes then Err(BadRequest)
      else
        var s1 := AddLike(s, me, id);
        var s2 := if s1.posts[id].author != me then NotificationModel.CreateLikeNotification(s1, me, id) else s1;
        Ok((PostViewOf(s2, s2.posts[id], caller), s2))
  }

  function UnlikePost(s: DbState, caller: Option<UserId>, id: PostId): (r: Outcome<PostView>)
    ensures caller.None? ==> r == Err(NotFound)
    ensures caller.Some? && id !in s.posts ==> r == Err(NotFound)
    ensures caller.Some? && id in s.posts && (caller.value, id) !in s.likes ==> r == Err(BadRequest)
    ensures r.Ok? <==> caller.Some? && id in s.posts && (caller.value, id) in s.likes
    ensures r.Ok? ==>
      var me, t := caller.value, r.value.1;
      && id in s.posts && (me, id) in s.likes
      && t == s.(likes := s.likes - {(me, id)},
                 posts := s.posts[id := s.posts[id].(likesCount := Decremented(s.posts[id].likesCount))])
      && t.notifications == s.notifications
      && r.value.0 == PostViewOf(t, t.posts[id], caller)
  {
    match caller
    case None => Err(NotFound)
    case Some(me) =>
      if id !in s.posts then Err(NotFound)
      else if (me, id) !in s.likes then Err(BadRequest)
      else
        var t := s.(likes := s.likes - {(me, id)},
                    posts := s.posts[id := s.posts[id].(likesCount := Decremented(s.posts[id].likesCount))]);
        Ok((PostViewOf(t, t.posts[id], caller), t))
  }

  // ---------------------------------------------------------------- reads

  function GetPostById(s: DbState, viewer: Option<UserId>, id: PostId): (r: Result<PostView>)
    ensures r.Err? <==> id !in s.posts
    ensures r.Err? ==> r.error == NotFound
    ensures r.Ok? ==> r.value == PostViewOf(s, s.posts[id], viewer)
  {
    if id !in s.posts then Err(NotFound) else Ok(PostViewOf(s, s.posts[id], viewer))
  }

  /** One page of every post, newest first. */
  function GetAllPosts(s: DbState, viewer: Option<UserId>, page: nat, size: nat): (r: seq<PostView>)
    requires size >= 1
    ensures |r| <= size && NewestFirst(r)
    ensures |r| == PostRepository.PageLength(|Rows(s)|, page, size)
    ensures forall i :: 0 <= i < |r| ==> r[i].isLiked.Some? == viewer.Some?
    ensures PostsOk(s) ==> ViewsStored(s, r, viewer)
  {
    var rows := PostRepository.FindAllByOrderByCreatedAtDesc(Rows(s), page, size);
    ViewsAreStored(s, rows, viewer);
    ViewsOf(s, rows, viewer)
  }

  /** One page of the posts of `author`, newest first; an unknown author is refused. */
  function GetPostsByUserId(s: DbState, viewer: Option<UserId>, author: UserId, page: nat, size: nat): (r: Result<seq<PostView>>)
    requires size >= 1
    ensures r.Err? <==> author !in s.users
    ensures r.Err? ==> r.error == NotFound
    ensures r.Ok? ==> |r.value| <= size && NewestFirst(r.value)
    ensures r.Ok? ==> forall i :: 0 <= i < |r.value| ==> r.value[i].author == author
    ensures r.Ok? ==> |r.value| == PostRepository.PageLength(|PostRepository.PostIdsBy(s.posts, author, s.nextPostId)|, page, size)
    ensures r.Ok? && PostsOk(s) ==> ViewsStored(s, r.value, viewer)
  {
    if author !in s.users then Err(NotFound)
    else
      var rows := PostRepository.FindByAuthorIdOrderByCreatedAtDesc(Rows(s), author, page, size);
      AuthorViews(s, viewer, author, page, size);
      Ok(ViewsOf(s, rows, viewer))
  }

  /** One page of the caller's feed: posts by the users the caller follows,
      newest first. */
  function GetFeedPosts(s: DbState, caller: Option<UserId>, page: nat, size: nat): (r: Result<seq<PostView>>)
    requires size >= 1
    ensures r.Err? <==> caller.None?
    ensures r.Err? ==> r.error == NotFound
    ensures r.Ok? ==> |r.value| <= size && NewestFirst(r.value)
    ensures r.Ok? ==> forall i :: 0 <= i < |r.value| ==>
      && r.value[i].author in PostRepository.Followees(s.users, caller.value)
      && r.value[i].isLiked == Some((caller.value, r.value[i].id) in s.likes)
    ensures r.Ok? && PostRepository.Followees(s.users, caller.value) == {} ==> r.value == []
    ensures r.Ok? ==>
      var followed := PostRepository.FromAuthors(Rows(s), PostRepository.Followees(s.users, caller.value));
      |r.value| == PostRepository.PageLength(|followed|, page, size)
    ensures r.Ok? && PostsOk(s) ==> ViewsStored(s, r.value, caller)
  {
    match caller
    case None => Err(NotFound)
    case Some(me) =>
      var rows := PostRepository.FindFeedPosts(Rows(s), s.users, me, page, size);
      assert forall i :: 0 <= i < |rows| ==> rows[i] in rows;
      ViewsAreStored(s, rows, caller);
      Ok(ViewsOf(s, rows, caller))
  }

  /** The `limit` most liked posts of the last 24 hours before `now`. */
  function GetTrendingPosts(s: DbState, viewer: Option<UserId>, limit: nat, now: Time): (r: seq<PostView>)
    requires limit >= 1
    ensures |r| <= limit && MostLikedFirst(r)
    ensures forall i :: 0 <= i < |r| ==> r[i].createdAt >= now - TrendingWindow
    ensures |r| == PostRepository.PageLength(|PostRepository.CreatedSince(Rows(s), now - TrendingWindow)|, 0, limit)
    ensures PostsOk(s) ==> ViewsStored(s, r, viewer)
  {
    var rows := PostRepository.FindTrendingPosts(Rows(s), now - TrendingWindow, 0, limit);
    assert forall i :: 0 <= i < |rows| ==> rows[i] in rows;
    ViewsAreStored(s, rows, viewer);
    ViewsOf(s, rows, viewer)
  }

  // ---------------------------------------------------------------- properties

  /** The table scan holds exactly the stored posts. */
  lemma RowsAreStored(s: DbState, p: PostRow)
    requires PostsOk(s)
    ensures p in Rows(s) <==> p.id in s.posts && s.posts[p.id] == p
  {
    TableHolds(s.posts, s.nextPostId, p);
    if p.id in s.posts && s.posts[p.id] == p {
      assert 0 <= p.id < s.nextPostId;
    }
  }

  /** Under the posts invariant, the views of rows of the table scan are the
      views of the stored posts. */
  lemma ViewsAreStored(s: DbState, rows: seq<PostRow>, viewer: Option<UserId>)
    requires forall p :: p in rows ==> p in Rows(s)
    ensures PostsOk(s) ==> ViewsStored(s, ViewsOf(s, rows, viewer), viewer)
  {
    if PostsOk(s) {
      forall i | 0 <= i < |rows|
        ensures rows[i].id in s.posts && s.posts[rows[i].id] == rows[i]
      {
        assert rows[i] in rows;
        RowsAreStored(s, rows[i]);
      }
    }
  }

  /** The views of one page of `author`'s rows: all by `author`, as many as
      that author's stored posts allow, each the view of a stored post. */
  lemma AuthorViews(s: DbState, viewer: Option<UserId>, author: UserId, page: nat, size: nat)
    ensures var r := ViewsOf(s, PostRepository.FindByAuthorIdOrderByCreatedAtDesc(Rows(s), author, page, size), viewer);
      && (forall i :: 0 <= i < |r| ==> r[i].author == author)
      && |r| == PostRepository.PageLength(|PostRepository.PostIdsBy(s.posts, author, s.nextPostId)|, page, size)
      && (PostsOk(s) ==> ViewsStored(s, r, viewer))
  {
    var rows := PostRepository.FindByAuthorIdOrderByCreatedAtDesc(Rows(s), author, page, size);
    assert forall i :: 0 <= i < |rows| ==> rows[i] in rows;
    PostRepository.CountByAuthorIdCountsPosts(s.posts, s.nextPostId, author);
    ViewsAreStored(s, rows, viewer);
  }

  /** Stored posts created apart are rows of the scan created apart. */
  lemma RowsCreatedApart(s: DbState, authors: set<UserId>)
    requires PostsOk(s) && CreatedApart(s, authors)
    ensures PostRepository.DistinctTimes(PostRepository.FromAuthors(Rows(s), authors))
  {
    var rows := PostRepository.FromAuthors(Rows(s), authors);
    forall a, b | a in rows && b in rows && a != b ensures a.createdAt != b.createdAt {
      RowsAreStored(s, a);
      RowsAreStored(s, b);
    }
  }

  /** Every stored post is on some page of the all-posts listing, when no two
      posts were created at the same time. */
  lemma AllPostsShown(s: DbState, viewer: Option<UserId>, size: nat, id: PostId)
    requires Inv(s) && size >= 1 && CreatedApart(s, s.users.Keys)
    requires id in s.posts
    ensures exists page: nat :: PostViewOf(s, s.posts[id], viewer) in GetAllPosts(s, viewer, page, size)
  {
    var p := s.posts[id];
    RowsAreStored(s, p);
    RowsCreatedApart(s, s.users.Keys);
    forall q | q in Rows(s) ensures q in PostRepository.FromAuthors(Rows(s), s.users.Keys) {
      RowsAreStored(s, q);
    }
    PostRepository.AllCoversPosts(Rows(s), size, p);
    var page: nat :| p in PostRepository.FindAllByOrderByCreatedAtDesc(Rows(s), page, size);
    var rows := PostRepository.FindAllByOrderByCreatedAtDesc(Rows(s), page, size);
    var k :| 0 <= k < |rows| && rows[k] == p;
    assert GetAllPosts(s, viewer, page, size)[k] == PostViewOf(s, p, viewer);
  }

  /** Every post of `author` is on some page of that author's listing, when no
      two of them were created at the same time. */
  lemma AuthorPostsShown(s: DbState, viewer: Option<UserId>, author: UserId, size: nat, id: PostId)
    requires Inv(s) && size >= 1 && CreatedApart(s, {author})
    requires id in s.posts && s.posts[id].author == author
    ensures GetPostsByUserId(s, viewer, author, 0, size).Ok?
    ensures exists page: nat :: PostViewOf(s, s.posts[id], viewer) in GetPostsByUserId(s, viewer, author, page, size).value
  {
    var p := s.posts[id];
    RowsAreStored(s, p);
    RowsCreatedApart(s, {author});
    PostRepository.AuthorCoversPosts(Rows(s), author, size, p);
    var page: nat :| p in PostRepository.FindByAuthorIdOrderByCreatedAtDesc(Rows(s), author, page, size);
    var rows := PostRepository.FindByAuthorIdOrderByCreatedAtDesc(Rows(s), author, page, size);
    var k :| 0 <= k < |rows| && rows[k] == p;
    assert GetPostsByUserId(s, viewer, author, page, size).value[k] == PostViewOf(s, p, viewer);
  }

  /** Every post of a user the caller follows is on some page of the feed,
      when no two such posts were created at the same time. */
  lemma FeedShowsFollowedPosts(s: DbState, me: UserId, size: nat, id: PostId)
    requires Inv(s) && size >= 1 && CreatedApart(s, PostRepository.Followees(s.users, me))
    requires id in s.posts && s.posts[id].author in PostRepository.Followees(s.users, me)
    ensures exists page: nat :: PostViewOf(s, s.posts[id], Some(me)) in GetFeedPosts(s, Some(me), page, size).value
  {
    var p := s.posts[id];
    RowsAreStored(s, p);
    RowsCreatedApart(s, PostRepository.Followees(s.users, me));
    PostRepository.FeedCoversFollowees(Rows(s), s.users, me, size, p);
    var page: nat :| p in PostRepository.FindFeedPosts(Rows(s), s.users, me, page, size);
    var rows := PostRepository.FindFeedPosts(Rows(s), s.users, me, page, size);
    var k :| 0 <= k < |rows| && rows[k] == p;
    assert GetFeedPosts(s, Some(me), page, size).value[k] == PostViewOf(s, p, Some(me));
  }

  /** A recent post missing from the trending list ranks behind every post on it. */
  lemma TrendingShowsTopRanked(s: DbState, viewer: Option<UserId>, limit: nat, now: Time, id: PostId)
    requires PostsOk(s) && limit >= 1
    requires id in s.posts && s.posts[id].createdAt >= now - TrendingWindow
    requires PostViewOf(s, s.posts[id], viewer) !in GetTrendingPosts(s, viewer, limit, now)
    ensures forall v :: v in GetTrendingPosts(s, viewer, limit, now) ==>
      || v.likesCount > s.posts[id].likesCount
      || (v.likesCount == s.posts[id].likesCount && v.createdAt >= s.posts[id].createdAt)
  {
    var q := s.posts[id];
    var r := GetTrendingPosts(s, viewer, limit, now);
    var rows := PostRepository.FindTrendingPosts(Rows(s), now - TrendingWindow, 0, limit);
    RowsAreStored(s, q);
    PostRepository.TrendingIsTopRanked(Rows(s), now - TrendingWindow, limit, q);
    forall v | v in r
      ensures v.likesCount > q.likesCount || (v.likesCount == q.likesCount && v.createdAt >= q.createdAt)
    {
      var i :| 0 <= i < |r| && r[i] == v;
      assert rows[i] in rows;
    }
  }

  /** When at most `limit` posts are recent, all of them trend. */
  lemma TrendingShowsAllWhenFew(s: DbState, viewer: Option<UserId>, limit: nat, now: Time, id: PostId)
    requires PostsOk(s) && limit >= 1
    requires |PostRepository.CreatedSince(Rows(s), now - TrendingWindow)| <= limit
    requires id in s.posts && s.posts[id].createdAt >= now - TrendingWindow
    ensures PostViewOf(s, s.posts[id], viewer) in GetTrendingPosts(s, viewer, limit, now)
  {
    var q := s.posts[id];
    RowsAreStored(s, q);
    PostRepository.TrendingHoldsAllWhenFew(Rows(s), now - TrendingWindow, limit, q);
    var rows := PostRepository.FindTrendingPosts(Rows(s), now - TrendingWindow, 0, limit);
    var k :| 0 <= k < |rows| && rows[k] == q;
    assert GetTrendingPosts(s, viewer, limit, now)[k] == PostViewOf(s, q, viewer);
  }

  /** A new post is stored under an identity no other post has, with no like. */
  lemma CreatePostFresh(s: DbState, caller: Option<UserId>, content: string, now: Time)
    requires Inv(s) && CreatePost(s, caller, content, now).Ok?
    ensures s.nextPostId !in s.posts
    ensures CreatePost(s, caller, content, now).value.0.isLiked == Some(false)
    ensures Likers(CreatePost(s, caller, content, now).value.1.likes, s.nextPostId) == {}
  {
    assert s.nextPostId !in s.posts;
    assert forall l :: l in s.likes ==> l.1 != s.nextPostId;
  }

  /** Liking twice: the second like is refused, so the post ends up with
      exactly one more like than before. */
  lemma LikeTwiceNetsOne(s: DbState, caller: Option<UserId>, id: PostId)
    requires LikePost(s, caller, id).Ok?
    ensures var t := LikePost(s, caller, id).value.1;
      && LikePost(t, caller, id) == Err(BadRequest)
      && t.posts[id].likesCount == s.posts[id].likesCount + 1
  {
  }

  /** A like followed by an unlike gives back the post row and the like set. */
  lemma LikeThenUnlikeRestores(s: DbState, caller: Option<UserId>, id: PostId)
    requires Inv(s) && LikePost(s, caller, id).Ok?
    ensures var t := LikePost(s, caller, id).value.1;
      && UnlikePost(t, caller, id).Ok?
      && UnlikePost(t, caller, id).value.1.posts == s.posts
      && UnlikePost(t, caller, id).value.1.likes == s.likes
  {
    var t := LikePost(s, caller, id).value.1;
    assert s.posts[id].likesCount >= 0;
    assert t.posts[id].likesCount > 0;
    assert s.likes + {(caller.value, id)} - {(caller.value, id)} == s.likes;
    assert s.posts[id].(likesCount := s.posts[id].likesCount) == s.posts[id];
  }

  lemma CreatePostPreserves(s: DbState, caller: Option<UserId>, content: string, now: Time)
    requires Inv(s) && CreatePost(s, caller, content, now).Ok?
    ensures Inv(CreatePost(s, caller, content, now).value.1)
    ensures ReadStaysRead(s, CreatePost(s, caller, content, now).value.1)
  {
    var t := CreatePost(s, caller, content, now).value.1;
    CreatePostFresh(s, caller, content, now);
    assert forall p :: p in s.posts ==> Likers(t.likes, p) == Likers(s.likes, p);
  }

  lemma UpdatePostPreserves(s: DbState, caller: Option<UserId>, id: PostId, content: string)
    requires Inv(s) && UpdatePost(s, caller, id, content).Ok?
    ensures Inv(UpdatePost(s, caller, id, content).value.1)
    ensures ReadStaysRead(s, UpdatePost(s, caller, id, content).value.1)
  {
  }

  lemma DeletePostPreserves(s: DbState, caller: Option<UserId>, id: PostId)
    requires Inv(s) && DeletePost(s, caller, id).Ok?
    ensures Inv(DeletePost(s, caller, id).value.1)
    ensures ReadStaysRead(s, DeletePost(s, caller, id).value.1)
  {
    var t := DeletePost(s, caller, id).value.1;
    forall p | p in t.posts ensures Likers(t.likes, p) == Likers(s.likes, p) {
      forall u | u in Likers(s.likes, p) ensures u in Likers(t.likes, p) {
        assert (u, p) in s.likes;
        assert (u, p) in t.likes;
      }
    }
    forall c | c in t.comments ensures ParentOk(t.comments, c) {
      assert ParentOk(s.comments, c);
    }
  }

  /** Saving a new like row and raising the post's counter together keep
      every invariant; either step alone would break the like count. */
  lemma AddLikeKeepsInv(s: DbState, u: UserId, id: PostId)
    requires Inv(s) && u in s.users && id in s.posts && (u, id) !in s.likes
    ensures Inv(AddLike(s, u, id))
  {
    var s1 := AddLike(s, u, id);
    AddLikeCount(s.likes, u, id);
    forall p | p in s1.posts && p != id ensures s1.posts[p].likesCount == |Likers(s1.likes, p)| {
      LikersElsewhere(s.likes, (u, id), p);
    }
  }

  /** Liking keeps every invariant: the new like row and the raised counter
      keep `likesCount` equal to the number of likers. */
  lemma LikePostPreserves(s: DbState, caller: Option<UserId>, id: PostId)
    requires Inv(s) && LikePost(s, caller, id).Ok?
    ensures Inv(LikePost(s, caller, id).value.1)
    ensures ReadStaysRead(s, LikePost(s, caller, id).value.1)
    ensures LikePost(s, caller, id).value.0.isLiked == Some(true)
  {
    var me := caller.value;
    var s1 := AddLike(s, me, id);
    AddLikeKeepsInv(s, me, id);
    if s1.posts[id].author != me {
      var t := LikePost(s, caller, id).value.1;
      NotificationModel.NotifyPreserves(s1, t.notifications[s.nextNotificationId]);
    }
  }

  /** Unliking keeps every invariant: the like existed, so the counter was
      positive and drops by exactly one together with the like set. */
  lemma UnlikePostPreserves(s: DbState, caller: Option<UserId>, id: PostId)
    requires Inv(s) && UnlikePost(s, caller, id).Ok?
    ensures Inv(UnlikePost(s, caller, id).value.1)
    ensures ReadStaysRead(s, UnlikePost(s, caller, id).value.1)
    ensures UnlikePost(s, caller, id).value.1.posts[id].likesCount == s.posts[id].likesCount - 1
    ensures UnlikePost(s, caller, id).value.0.isLiked == Some(false)
  {
    var me := caller.value;
    var t := UnlikePost(s, caller, id).value.1;
    RemoveLikeCount(s.likes, me, id);
    assert s.posts[id].likesCount > 0;
    forall p | p in t.posts && p != id ensures t.posts[p].likesCount == |Likers(t.likes, p)| {
      LikersElsewhere(s.likes, (me, id), p);
    }
  }
}
