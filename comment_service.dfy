/** The comment service as methods on the persistence context: comments are
    rows, the post's counter moves through the `Post` object's own helpers,
    and each method is proved to commit what the matching function of
    `CommentModel` describes. */
module CommentService {
  import opened Common
  import opened State
  import opened UserEntity
  import opened PostEntity
  import opened Persistence
  import CM = CommentModel
  import NotificationService
  import NM = NotificationModel

  /** Raises the comment counter on `post`'s object; only the posts table
      changes. */
  method RaiseCommentsCount(db: Database, post: Post)
    requires post.id in db.posts && db.posts[post.id] == post && post.Valid()
    requires forall p :: p in db.posts ==> db.posts[p].id == p
    modifies post
    ensures post.Valid()
    ensures db.Snapshot() == old(db.Snapshot()).(posts := old(db.Snapshot()).posts[post.id := post.Row()])
    ensures post.Row() == old(post.Row()).(commentsCount := old(post.commentsCount) + 1)
  {
    post.IncrementCommentsCount();
    db.OnePostChanged(post);
  }

  /** Lowers the comment counter on `post`'s object, never below zero; only
      the posts table changes. */
  method LowerCommentsCount(db: Database, post: Post)
    requires post.id in db.posts && db.posts[post.id] == post && post.Valid()
    requires forall p :: p in db.posts ==> db.posts[p].id == p
    modifies post
    ensures post.Valid()
    ensures db.Snapshot() == old(db.Snapshot()).(posts := old(db.Snapshot()).posts[post.id := post.Row()])
    ensures post.Row() == old(post.Row()).(commentsCount := Decremented(old(post.commentsCount)))
  {
    post.DecrementCommentsCount();
    db.OnePostChanged(post);
  }

  /** Saves the comment under the next identity and raises the post's
      counter; nothing else changes. */
  method RecordComment(db: Database, post: Post, me: UserId, parent: Option<CommentId>, content: string) returns (id: CommentId)
    requires post.id in db.posts && db.posts[post.id] == post && post.Valid()
    requires forall p :: p in db.posts ==> db.posts[p].id == p && db.posts[p].Valid()
    modifies db`comments, db`nextCommentId, post
    ensures forall p :: p in db.posts ==> db.posts[p].Valid()
    ensures db.posts == old(db.posts) && db.users == old(db.users)
    ensures post.Valid() && id == old(db.nextCommentId)
    ensures db.Snapshot() == CM.AddComment(old(db.Snapshot()), me, post.id, parent, content)
  {
    ghost var s := db.Snapshot();
    id := db.nextCommentId;
    db.comments := db.comments[id := CommentRow(post.id, me, parent, content, 0)];
    db.nextCommentId := id + 1;
    assert db.Snapshot() == s.(comments := db.comments, nextCommentId := id + 1);
    RaiseCommentsCount(db, post);
  }

  /** `RecordComment` on a valid context, which it keeps valid. */
  method SaveComment(db: Database, post: Post, me: UserId, parent: Option<CommentId>, content: string) returns (id: CommentId)
    requires db.Valid() && post.id in db.posts && db.posts[post.id] == post && me in db.users
    requires parent.Some? ==> parent.value in db.comments && db.comments[parent.value].post == post.id
    modifies db`comments, db`nextCommentId, post
    ensures db.Valid() && db.users == old(db.users) && db.posts == old(db.posts)
    ensures id == old(db.nextCommentId)
    ensures db.Snapshot() == CM.AddComment(old(db.Snapshot()), me, post.id, parent, content)
  {
    ghost var s := db.Snapshot();
    CM.AddCommentKeepsInv(s, me, post.id, parent, content);
    id := RecordComment(db, post, me, parent, content);
    db.ValidWhen(CM.AddComment(s, me, post.id, parent, content));
  }

  method CreateComment(db: Database, caller: Option<UserId>, postId: PostId, parent: Option<CommentId>, content: string, delivered: bool)
    returns (r: Result<CM.CommentView>)
    requires db.Valid()
    modifies db, db.posts.Values
    ensures db.Valid()
    ensures Realizes(CM.CreateComment(old(db.Snapshot()), caller, postId, parent, content), r, old(db.Snapshot()), db.Snapshot())
  {
    ghost var s := db.Snapshot();
    if caller.None? || caller.value !in db.users || postId !in db.posts {
      return Err(NotFound);
    }
    var me := caller.value;
    var user := db.users[me];
    var post := db.posts[postId];
    if parent.Some? && parent.value !in db.comments {
      return Err(NotFound);
    }
    if parent.Some? && db.comments[parent.value].post != postId {
      return Err(BadRequest);
    }
    var parentRow := if parent.Some? then Some(db.comments[parent.value]) else None;
    ghost var spec := CM.CreateComment(s, caller, postId, parent, content);
    ghost var s1 := CM.AddComment(s, me, postId, parent, content);
    assert spec.value.1 ==
      if parent.Some? then
        if parentRow.value.author != me then NM.CreateReplyNotification(s1, me, parent.value, parentRow.value) else s1
      else if post.author != me then NM.CreateCommentNotification(s1, me, postId)
      else s1;
    CM.CreateCommentPreserves(s, caller, postId, parent, content);
    var id := SaveComment(db, post, me, parent, content);
    if parent.Some? {
      if parentRow.value.author != me {
        NotificationService.CreateReplyNotification(db, user, parent.value, parentRow.value, delivered);
      }
    } else if post.author != me {
      NotificationService.CreateCommentNotification(db, user, post, delivered);
    }
    r := Ok(CM.CommentViewOf(db.Snapshot(), id));
    assert Realizes(spec, r, s, db.Snapshot());
  }

  method UpdateComment(db: Database, caller: Option<UserId>, id: CommentId, content: string) returns (r: Result<CM.CommentView>)
    requires db.Valid()
    modifies db`comments
    ensures db.Valid()
    ensures Realizes(CM.UpdateComment(old(db.Snapshot()), caller, id, content), r, old(db.Snapshot()), db.Snapshot())
  {
    ghost var s := db.Snapshot();
    if caller.None? || id !in db.comments {
      return Err(NotFound);
    }
    var comment := db.comments[id];
    if comment.author != caller.value {
      return Err(BadRequest);
    }
    CM.UpdateCommentPreserves(s, caller, id, content);
    comment := comment.(content := content);
    db.comments := db.comments[id := comment];
    assert db.Snapshot() == CM.UpdateComment(s, caller, id, content).value.1;
    r := Ok(CM.CommentViewOf(db.Snapshot(), id));
  }

  /** Deletes comment `id` with the replies beneath it and lowers the post's
      counter once; nothing else changes. */
  method DropThread(db: Database, post: Post, id: CommentId)
    requires post.id in db.posts && db.posts[post.id] == post && post.Valid()
    requires forall p :: p in db.posts ==> db.posts[p].id == p && db.posts[p].Valid()
    modifies db`comments, post
    ensures forall p :: p in db.posts ==> db.posts[p].Valid()
    ensures db.posts == old(db.posts) && db.users == old(db.users)
    ensures post.Valid()
    ensures db.comments == map c | c in old(db.comments) && c !in CM.Thread(old(db.comments), id) :: old(db.comments)[c]
    ensures post.Row() == old(post.Row()).(commentsCount := Decremented(old(post.commentsCount)))
    ensures db.Snapshot() == old(db.Snapshot()).(comments := db.comments, posts := old(db.Snapshot()).posts[post.id := post.Row()])
  {
    ghost var s := db.Snapshot();
    var gone := CM.Thread(db.comments, id);
    db.comments := map c | c in db.comments && c !in gone :: db.comments[c];
    assert db.Snapshot() == s.(comments := db.comments);
    LowerCommentsCount(db, post);
  }

  method DeleteComment(db: Database, caller: Option<UserId>, id: CommentId) returns (r: Result<()>)
    requires db.Valid()
    modifies db`comments, db.posts.Values
    ensures db.Valid()
    ensures Realizes(CM.DeleteComment(old(db.Snapshot()), caller, id), r, old(db.Snapshot()), db.Snapshot())
  {
    ghost var s := db.Snapshot();
    if caller.None? || id !in db.comments {
      return Err(NotFound);
    }
    if db.comments[id].author != caller.value {
      return Err(BadRequest);
    }
    var post := db.posts[db.comments[id].post];
    ghost var t := CM.DeleteComment(s, caller, id).value.1;
    CM.DeleteCommentPreserves(s, caller, id);
    DropThread(db, post, id);
    assert db.Snapshot() == t;
    db.ValidWhen(t);
    r := Ok(());
  }
}
