/** The comment operations as functions over the committed state: creating a
    comment or a reply, editing it, and deleting it together with the replies
    beneath it. */
module CommentModel {
  import opened Common
  import opened State
  import NotificationModel

  /** What the service hands back for one comment. */
  datatype CommentView = CommentView(
    id: CommentId,
    post: PostId,
    author: UserId,
    parent: Option<CommentId>,
    content: string,
    likesCount: int,
    repliesCount: nat)

  /** The direct replies to comment `c`. */
  function Replies(cs: map<CommentId, CommentRow>, c: CommentId): set<CommentId>
  {
    set d | d in cs && cs[d].parent == Some(c)
  }

  /** The view of comment `id`; `repliesCount` counts its direct replies. */
  function CommentViewOf(s: DbState, id: CommentId): (v: CommentView)
    requires id in s.comments
    ensures v.id == id && v.post == s.comments[id].post && v.author == s.comments[id].author
    ensures v.parent == s.comments[id].parent && v.content == s.comments[id].content
    ensures v.likesCount == s.comments[id].likesCount
    ensures v.repliesCount == |Replies(s.comments, id)|
  {
    var c := s.comments[id];
    CommentView(id, c.post, c.author, c.parent, c.content, c.likesCount, |Replies(s.comments, id)|)
  }

  /** `d` is `root` itself, or a stored comment whose chain of parents (each
      older than its reply) reaches `root`. */
  predicate InThread(cs: map<CommentId, CommentRow>, d: CommentId, root: CommentId)
    decreases d - root
  {
    d == root ||
    (d in cs && cs[d].parent.Some? && root <= cs[d].parent.value < d && InThread(cs, cs[d].parent.value, root))
  }

  /** The comment `root` with all the replies beneath it, at any depth. */
  function Thread(cs: map<CommentId, CommentRow>, root: CommentId): set<CommentId>
  {
    set d | d in cs && InThread(cs, d, root)
  }

  // ---------------------------------------------------------------- writes

  /** The comment saved under the next identity and the post's counter raised. */
  function AddComment(s: DbState, me: UserId, post: PostId, parent: Option<CommentId>, content: string): DbState
    requires post in s.posts
  {
    s.(comments := s.comments[s.nextCommentId := CommentRow(post, me, parent, content, 0)],
       nextCommentId := s.nextCommentId + 1,
       posts := s.posts[post := s.posts[post].(commentsCount := s.posts[post].commentsCount + 1)])
  }

  function CreateComment(s: DbState, caller: Option<UserId>, post: PostId, parent: Option<CommentId>, content: string): (r: Outcome<CommentView>)
    ensures caller.None? ==> r == Err(NotFound)
    ensures caller.Some? && (caller.value !in s.users || post !in s.posts) ==> r == Err(NotFound)
    ensures (caller.Some? && caller.value in s.users && post in s.posts &&
             parent.Some? && parent.value !in s.comments) ==> r == Err(NotFound)
    ensures (caller.Some? && caller.value in s.users && post in s.posts &&
             parent.Some? && parent.value in s.comments && s.comments[parent.value].post != post) ==> r == Err(BadRequest)
    ensures r.Ok? <==> caller.Some? && caller.value in s.users && post in s.posts &&
                       (parent.Some? ==> parent.value in s.comments && s.comments[parent.value].post == post)
    ensures r.Ok? ==>
      var me, id, t := caller.value, s.nextCommentId, r.value.1;
      var s1 := t.(notifications := s.notifications, nextNotificationId := s.nextNotificationId);
      && me in s.users && post in s.posts
      && (parent.Some? ==> parent.value in s.comments && s.comments[parent.value].post == post)
      && t.comments == s.comments[id := CommentRow(post, me, parent, content, 0)]
      && t.nextCommentId == id + 1
      && t.posts == s.posts[post := s.posts[post].(commentsCount := s.posts[post].commentsCount + 1)]
      && s1 == s.(comments := t.comments, nextCommentId := t.nextCommentId, posts := t.posts)
      && (parent.Some? && s.comments[parent.value].author != me ==>
            NotificationModel.CreatedOne(s1, t, Reply, me, s.comments[parent.value].author, Some(post), parent))
      && (parent.None? && s.posts[post].author != me ==>
            NotificationModel.CreatedOne(s1, t, Comment, me, s.posts[post].author, Some(post), None))
      && (((parent.Some? && s.comments[parent.value].author == me) ||
           (parent.None? && s.posts[post].author == me)) ==> t == s1)
      && r.value.0 == CommentViewOf(t, id)
  {
    match caller
    case None => Err(NotFound)
    case Some(me) =>
      if me !in s.users then Err(NotFound)
      else if post !in s.posts then Err(NotFound)
      else if parent.Some? && parent.value !in s.comments then Err(NotFound)
      else if parent.Some? && s.comments[parent.value].post != post then Err(BadRequest)
      else
        var id := s.nextCommentId;
        var s1 := AddComment(s, me, post, parent, content);
        var s2 :=
          if parent.Some? then
            var p := s.comments[parent.value];
            if p.author != me then NotificationModel.CreateReplyNotification(s1, me, parent.value, p) else s1
          else if s.posts[post].author != me then NotificationModel.CreateCommentNotification(s1, me, post)
          else s1;
        Ok((CommentViewOf(s2, id), s2))
  }

  function UpdateComment(s: DbState, caller: Option<UserId>, id: CommentId, content: string): (r: Outcome<CommentView>)
    ensures caller.None? ==> r == Err(NotFound)
    ensures caller.Some? && id !in s.comments ==> r == Err(NotFound)
    ensures caller.Some? && id in s.comments && s.comments[id].author != caller.value ==> r == Err(BadRequest)
    ensures r.Ok? <==> caller.Some? && id in s.comments && s.comments[id].author == caller.value
    ensures r.Ok? ==>
      var t := r.value.1;
      && t == s.(comments := s.comments[id := s.comments[id].(content := content)])
      && r.value.0 == CommentViewOf(t, id)
  {
    match caller
    case None => Err(NotFound)
    case Some(me) =>
      if id !in s.comments then Err(NotFound)
      else if s.comments[id].author != me then Err(BadRequest)
      else
        var t := s.(comments := s.comments[id := s.comments[id].(content := content)]);
        Ok((CommentViewOf(t, id), t))
  }

  /** Deletes comment `id` and every reply beneath it, and lowers the post's
      `commentsCount` once (floored at zero), however many comments went. */
  function DeleteComment(s: DbState, caller: Option<UserId>, id: CommentId): (r: Outcome<()>)
    requires CommentsOk(s)
    ensures caller.None? ==> r == Err(NotFound)
    ensures caller.Some? && id !in s.comments ==> r == Err(NotFound)
    ensures caller.Some? && id in s.comments && s.comments[id].author != caller.value ==> r == Err(BadRequest)
    ensures r.Ok? <==> caller.Some? && id in s.comments && s.comments[id].author == caller.value
    ensures r.Ok? ==>
      var p, t := s.comments[id].post, r.value.1;
      && (forall c :: c in t.comments <==> c in s.comments && c !in Thread(s.comments, id))
      && (forall c :: c in t.comments ==> t.comments[c] == s.comments[c])
      && id !in t.comments
      && t.posts == s.posts[p := s.posts[p].(commentsCount := Decremented(s.posts[p].commentsCount))]
      && t == s.(comments := t.comments, posts := t.posts)
  {
    match caller
    case None => Err(NotFound)
    case Some(me) =>
      if id !in s.comments then Err(NotFound)
      else if s.comments[id].author != me then Err(BadRequest)
      else
        var p := s.comments[id].post;
        var gone := Thread(s.comments, id);
        assert id in gone;
        Ok(((), s.(comments := (map c | c in s.comments && c !in gone :: s.comments[c]),
                   posts := s.posts[p := s.posts[p].(commentsCount := Decremented(s.posts[p].commentsCount))])))
  }

  // ---------------------------------------------------------------- properties

  /** A comment in the thread of `root` is `root` or younger. */
  lemma {:induction false} InThreadAbove(cs: map<CommentId, CommentRow>, d: CommentId, root: CommentId)
    requires InThread(cs, d, root)
    ensures d >= root
    decreases d - root
  {
    if d != root {
      InThreadAbove(cs, cs[d].parent.value, root);
    }
  }

  /** The thread is closed under replies: a stored reply to a comment of the
      thread is itself in the thread. */
  lemma ThreadClosed(s: DbState, root: CommentId, c: CommentId)
    requires CommentsOk(s) && c in s.comments && s.comments[c].parent.Some?
    requires s.comments[c].parent.value in Thread(s.comments, root)
    ensures c in Thread(s.comments, root)
  {
    var p := s.comments[c].parent.value;
    assert ParentOk(s.comments, c);
    InThreadAbove(s.comments, p, root);
  }

  /** Deleting a comment deletes its direct replies too. */
  lemma DeleteRemovesReplies(s: DbState, caller: Option<UserId>, id: CommentId)
    requires CommentsOk(s) && DeleteComment(s, caller, id).Ok?
    ensures Replies(s.comments, id) !! DeleteComment(s, caller, id).value.1.comments.Keys
  {
    assert id in Thread(s.comments, id);
    forall c | c in Replies(s.comments, id) ensures c in Thread(s.comments, id) {
      ThreadClosed(s, id, c);
    }
  }

  /** As written, the counter drops by at most one even when the deleted
      comment had replies and at least two comments disappear: from then on
      `commentsCount` over-counts the post's comments. */
  lemma DeleteCountsOnce(s: DbState, caller: Option<UserId>, id: CommentId, reply: CommentId)
    requires Inv(s) && DeleteComment(s, caller, id).Ok?
    requires reply in Replies(s.comments, id)
    ensures var p, t := s.comments[id].post, DeleteComment(s, caller, id).value.1;
      && |t.comments| <= |s.comments| - 2
      && t.posts[p].commentsCount >= s.posts[p].commentsCount - 1
  {
    var t := DeleteComment(s, caller, id).value.1;
    DeleteRemovesReplies(s, caller, id);
    assert reply != id;
    assert t.comments.Keys <= s.comments.Keys - {id, reply};
    assert |s.comments.Keys - {id, reply}| == |s.comments.Keys| - 2;
    SubsetSize(t.comments.Keys, s.comments.Keys - {id, reply});
  }

  lemma SubsetSize(a: set<CommentId>, b: set<CommentId>)
    requires a <= b
    ensures |a| <= |b|
  {
    assert b == a + (b - a);
  }

  /** A reply adds one to its parent's `repliesCount`. */
  lemma ReplyRaisesRepliesCount(s: DbState, caller: Option<UserId>, post: PostId, parent: CommentId, content: string)
    requires Inv(s) && CreateComment(s, caller, post, Some(parent), content).Ok?
    ensures var t := CreateComment(s, caller, post, Some(parent), content).value.1;
      parent in t.comments &&
      CommentViewOf(t, parent).repliesCount == CommentViewOf(s, parent).repliesCount + 1
  {
    var t := CreateComment(s, caller, post, Some(parent), content).value.1;
    var id := s.nextCommentId;
    assert id !in s.comments;
    assert Replies(t.comments, parent) == Replies(s.comments, parent) + {id};
  }

  /** Saving a comment under the next identity and raising its post's
      counter keep every invariant, provided its parent is a stored comment of
      the same post. */
  lemma AddCommentKeepsInv(s: DbState, me: UserId, post: PostId, parent: Option<CommentId>, content: string)
    requires Inv(s) && me in s.users && post in s.posts
    requires parent.Some? ==> parent.value in s.comments && s.comments[parent.value].post == post
    ensures Inv(AddComment(s, me, post, parent, content))
  {
    var id := s.nextCommentId;
    var s1 := AddComment(s, me, post, parent, content);
    assert id !in s.comments;
    forall c | c in s1.comments ensures ParentOk(s1.comments, c) {
      if c != id { assert ParentOk(s.comments, c); }
    }
  }

  lemma CreateCommentPreserves(s: DbState, caller: Option<UserId>, post: PostId, parent: Option<CommentId>, content: string)
    requires Inv(s) && CreateComment(s, caller, post, parent, content).Ok?
    ensures Inv(CreateComment(s, caller, post, parent, content).value.1)
    ensures ReadStaysRead(s, CreateComment(s, caller, post, parent, content).value.1)
  {
    var me := caller.value;
    var s1 := AddComment(s, me, post, parent, content);
    AddCommentKeepsInv(s, me, post, parent, content);
    var t := CreateComment(s, caller, post, parent, content).value.1;
    if t != s1 {
      NotificationModel.NotifyPreserves(s1, t.notifications[s.nextNotificationId]);
    }
  }

  lemma UpdateCommentPreserves(s: DbState, caller: Option<UserId>, id: CommentId, content: string)
    requires Inv(s) && UpdateComment(s, caller, id, content).Ok?
    ensures Inv(UpdateComment(s, caller, id, content).value.1)
    ensures ReadStaysRead(s, UpdateComment(s, caller, id, content).value.1)
  {
    var t := UpdateComment(s, caller, id, content).value.1;
    forall c | c in t.comments ensures ParentOk(t.comments, c) {
      assert ParentOk(s.comments, c);
    }
  }

  /** Deleting a comment keeps every invariant: no remaining reply loses its
      parent, because the thread is closed under replies. */
  lemma DeleteCommentPreserves(s: DbState, caller: Option<UserId>, id: CommentId)
    requires Inv(s) && DeleteComment(s, caller, id).Ok?
    ensures Inv(DeleteComment(s, caller, id).value.1)
    ensures ReadStaysRead(s, DeleteComment(s, caller, id).value.1)
  {
    var t := DeleteComment(s, caller, id).value.1;
    forall c | c in t.comments ensures ParentOk(t.comments, c) {
      assert ParentOk(s.comments, c);
      if s.comments[c].parent.Some? {
        var p := s.comments[c].parent.value;
        if p in Thread(s.comments, id) {
          ThreadClosed(s, id, c);
        }
      }
    }
  }
}
