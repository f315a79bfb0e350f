/** The rows the persistence layer holds, the committed state built from them,
    and the invariants every committed state satisfies. */
module State {
  import opened Common

  /** The profile columns of a user; nullable columns are options. */
  datatype Profile = Profile(
    username: string,
    email: string,
    fullName: Option<string>,
    bio: Option<string>,
    location: Option<string>,
    profileImageUrl: Option<string>,
    coverImageUrl: Option<string>,
    website: Option<string>)

  /** A user row with both sides of the follow relation, as sets of user ids
      (users are equal exactly when their ids are). */
  datatype UserRow = UserRow(profile: Profile, following: set<UserId>, followers: set<UserId>)

  datatype PostRow = PostRow(
    id: PostId,
    author: UserId,
    content: string,
    likesCount: int,
    commentsCount: int,
    sharesCount: int,
    createdAt: Time)

  datatype CommentRow = CommentRow(
    post: PostId,
    author: UserId,
    parent: Option<CommentId>,
    content: string,
    likesCount: int)

  datatype NotificationType = Like | Comment | Reply | Follow | Mention

  datatype NotificationRow = NotificationRow(
    kind: NotificationType,
    message: string,
    recipient: UserId,
    sender: Option<UserId>,
    post: Option<PostId>,
    comment: Option<CommentId>,
    isRead: bool)

  /** The committed content of every table, plus the next identity each
      table hands out. A like is the (user, post) pair it is keyed by. */
  datatype DbState = DbState(
    users: map<UserId, UserRow>,
    posts: map<PostId, PostRow>,
    likes: set<(UserId, PostId)>,
    comments: map<CommentId, CommentRow>,
    notifications: map<NotificationId, NotificationRow>,
    nextPostId: nat,
    nextCommentId: nat,
    nextNotificationId: nat)

  /** What a service operation yields: a value and the state it commits. */
  type Outcome<T> = Result<(T, DbState)>

  /** `r` and `after` are what committing `spec` from `before` gives: on
      success its value and state, on failure its error and no change. */
  predicate Realizes<T(==)>(spec: Outcome<T>, r: Result<T>, before: DbState, after: DbState)
  {
    match spec
    case Ok(p) => r == Ok(p.0) && after == p.1
    case Err(e) => r == Err(e) && after == before
  }

  /** A counter one step down, but never below zero: at zero it stays at zero. */
  function Decremented(n: int): int
  {
    if n > 0 then n - 1 else n
  }

  /** The users who like `post`. */
  function Likers(likes: set<(UserId, PostId)>, post: PostId): set<UserId>
  {
    set l | l in likes && l.1 == post :: l.0
  }

  /** The posts table in primary-key order: every id below `n` that is present. */
  function Table(posts: map<PostId, PostRow>, n: nat): seq<PostRow>
  {
    if n == 0 then [] else Table(posts, n - 1) + (if n - 1 in posts then [posts[n - 1]] else [])
  }

  function Rows(s: DbState): seq<PostRow>
  {
    Table(s.posts, s.nextPostId)
  }

  // ---------------------------------------------------------------- invariants

  /** `a` follows `b` exactly when `a` is among the followers of `b`. */
  ghost predicate Mirrored(users: map<UserId, UserRow>)
  {
    forall a, b :: a in users && b in users ==>
      (b in users[a].following <==> a in users[b].followers)
  }

  /** Edges join existing users, nobody follows themself, and the two indexes agree. */
  ghost predicate GraphOk(users: map<UserId, UserRow>)
  {
    && (forall a :: a in users ==>
          && users[a].following <= users.Keys
          && users[a].followers <= users.Keys
          && a !in users[a].following)
    && Mirrored(users)
  }

  ghost predicate PostsOk(s: DbState)
  {
    forall p :: p in s.posts ==>
      && s.posts[p].id == p
      && 0 <= p < s.nextPostId
      && s.posts[p].author in s.users
      && s.posts[p].commentsCount >= 0
      && s.posts[p].sharesCount >= 0
  }

  /** Every like refers to a user and a post, and each post's `likesCount`
      is the number of users who like it. */
  ghost predicate LikesOk(s: DbState)
  {
    && (forall l :: l in s.likes ==> l.0 in s.users && l.1 in s.posts)
    && (forall p :: p in s.posts ==> s.posts[p].likesCount == |Likers(s.likes, p)|)
  }

  /** A reply's parent exists, is older, and belongs to the same post. */
  predicate ParentOk(cs: map<CommentId, CommentRow>, c: CommentId)
    requires c in cs
  {
    match cs[c].parent
    case None => true
    case Some(p) => p in cs && p < c && cs[p].post == cs[c].post
  }

  ghost predicate CommentsOk(s: DbState)
  {
    forall c :: c in s.comments ==>
      && 0 <= c < s.nextCommentId
      && s.comments[c].post in s.posts
      && s.comments[c].author in s.users
      && ParentOk(s.comments, c)
  }

  ghost predicate NotificationsOk(s: DbState)
  {
    forall n :: n in s.notifications ==>
      0 <= n < s.nextNotificationId && s.notifications[n].recipient in s.users
  }

  ghost predicate Inv(s: DbState)
  {
    GraphOk(s.users) && PostsOk(s) && LikesOk(s) && CommentsOk(s) && NotificationsOk(s)
  }

  /** A notification that was read stays read. */
  ghost predicate ReadStaysRead(s: DbState, t: DbState)
  {
    forall n :: n in s.notifications && n in t.notifications && s.notifications[n].isRead ==>
      t.notifications[n].isRead
  }

  // ---------------------------------------------------------------- lemmas

  /** The table scan lists exactly the stored posts whose id is below `n`. */
  lemma {:induction false} TableHolds(posts: map<PostId, PostRow>, n: nat, p: PostRow)
    ensures p in Table(posts, n) <==> exists k :: 0 <= k < n && k in posts && posts[k] == p
  {
    if n > 0 {
      TableHolds(posts, n - 1, p);
      var last := if n - 1 in posts then [posts[n - 1]] else [];
      assert Table(posts, n) == Table(posts, n - 1) + last;
      if p in Table(posts, n) && p !in Table(posts, n - 1) {
        assert p in last;
      }
    }
  }

  /** Adding a like that is not there yet adds exactly one liker to that post. */
  lemma AddLikeCount(likes: set<(UserId, PostId)>, u: UserId, post: PostId)
    requires (u, post) !in likes
    ensures Likers(likes + {(u, post)}, post) == Likers(likes, post) + {u}
    ensures u !in Likers(likes, post)
    ensures |Likers(likes + {(u, post)}, post)| == |Likers(likes, post)| + 1
  {
    assert Likers(likes + {(u, post)}, post) == Likers(likes, post) + {u};
  }

  /** Removing an existing like removes exactly one liker from that post. */
  lemma RemoveLikeCount(likes: set<(UserId, PostId)>, u: UserId, post: PostId)
    requires (u, post) in likes
    ensures Likers(likes - {(u, post)}, post) == Likers(likes, post) - {u}
    ensures u in Likers(likes, post)
    ensures |Likers(likes - {(u, post)}, post)| == |Likers(likes, post)| - 1
  {
    assert u in Likers(likes, post);
    forall v | v in Likers(likes, post) - {u}
      ensures v in Likers(likes - {(u, post)}, post)
    {
      var l :| l in likes && l.1 == post && l.0 == v;
      assert l != (u, post);
    }
    assert Likers(likes - {(u, post)}, post) == Likers(likes, post) - {u};
  }

  /** Likes on other posts do not change who likes `post`. */
  lemma LikersElsewhere(likes: set<(UserId, PostId)>, l: (UserId, PostId), post: PostId)
    requires l.1 != post
    ensures Likers(likes + {l}, post) == Likers(likes, post)
    ensures Likers(likes - {l}, post) == Likers(likes, post)
  {
    assert Likers(likes + {l}, post) == Likers(likes, post);
    forall v | v in Likers(likes, post)
      ensures v in Likers(likes - {l}, post)
    {
      var m :| m in likes && m.1 == post && m.0 == v;
      assert m != l;
    }
  }
}
