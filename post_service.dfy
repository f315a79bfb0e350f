/** The post service as methods on the persistence context: counters move
    through the `Post` objects' own helpers, and each method is proved to
    commit what the matching function of `PostModel` describes. */
module PostService {
  import opened Common
  import opened State
  import opened PostEntity
  import opened Persistence
  import PM = PostModel
  import NotificationService
  import NM = NotificationModel

  method CreatePost(db: Database, caller: Option<UserId>, content: string, now: Time) returns (r: Result<PM.PostView>)
    requires db.Valid()
    modifies db
    ensures db.Valid()
    ensures Realizes(PM.CreatePost(old(db.Snapshot()), caller, content, now), r, old(db.Snapshot()), db.Snapshot())
  {
    ghost var s := db.Snapshot();
    if caller.None? || caller.value !in db.users {
      return Err(NotFound);
    }
    var me := caller.value;
    PM.CreatePostPreserves(s, caller, content, now);
    var id := db.nextPostId;
    var post := new Post(id, me, content, now);
    db.posts := db.posts[id := post];
    db.nextPostId := id + 1;
    db.PostAdded(post);
    assert db.Snapshot() == PM.CreatePost(s, caller, content, now).value.1;
    r := Ok(PM.PostViewOf(db.Snapshot(), post.Row(), caller));
  }

  /** Stores `content` on `post`'s object. */
  method SetContent(db: Database, post: Post, content: string)
    requires db.Valid() && post.id in db.posts && db.posts[post.id] == post
    modifies post
    ensures db.Valid()
    ensures db.Snapshot() == PM.UpdatePost(old(db.Snapshot()), Some(post.author), post.id, content).value.1
  {
    ghost var s := db.Snapshot();
    PM.UpdatePostPreserves(s, Some(post.author), post.id, content);
    post.content := content;
    db.OnePostChanged(post);
  }

  method UpdatePost(db: Database, caller: Option<UserId>, id: PostId, content: string) returns (r: Result<PM.PostView>)
    requires db.Valid()
    modifies db.posts.Values
    ensures db.Valid()
    ensures Realizes(PM.UpdatePost(old(db.Snapshot()), caller, id, content), r, old(db.Snapshot()), db.Snapshot())
  {
    ghost var s := db.Snapshot();
    if caller.None? || id !in db.posts {
      return Err(NotFound);
    }
    var post := db.posts[id];
    if post.author != caller.value {
      return Err(BadRequest);
    }
    SetContent(db, post, content);
    r := Ok(PM.PostViewOf(db.Snapshot(), post.Row(), caller));
  }

  /** Removes the post under `id` together with its like and comment rows. */
  method DropPost(db: Database, id: PostId)
    requires id in db.posts && db.posts[id].id == id
    modifies db`posts, db`likes, db`comments
    ensures db.posts == old(db.posts) - {id} && db.users == old(db.users)
    ensures db.Snapshot() == PM.DeletePost(old(db.Snapshot()), Some(old(db.posts[id].author)), id).value.1
  {
    ghost var s := db.Snapshot();
    ghost var t := PM.DeletePost(s, Some(db.posts[id].author), id).value.1;
    db.posts := db.posts - {id};
    db.likes := set l | l in db.likes && l.1 != id;
    db.comments := map c | c in db.comments && db.comments[c].post != id :: db.comments[c];
    db.PostRemoved(id);
    assert db.likes == t.likes && db.comments == t.comments;
  }

  /** Deleting the post cascades to its likes and its comments. */
  method DeletePost(db: Database, caller: Option<UserId>, id: PostId) returns (r: Result<()>)
    requires db.Valid()
    modifies db`posts, db`likes, db`comments
    ensures db.Valid()
    ensures Realizes(PM.DeletePost(old(db.Snapshot()), caller, id), r, old(db.Snapshot()), db.Snapshot())
  {
    ghost var s := db.Snapshot();
    if caller.None? || id !in db.posts {
      return Err(NotFound);
    }
    if db.posts[id].author != caller.value {
      return Err(BadRequest);
    }
    PM.DeletePostPreserves(s, caller, id);
    DropPost(db, id);
    r := Ok(());
  }

  /** Saves the like row and raises the post's counter. */
  method RecordLike(db: Database, post: Post, me: UserId)
    requires db.Valid() && post.id in db.posts && db.posts[post.id] == post
    requires me in db.users && (me, post.id) !in db.likes
    modifies db`likes, post
    ensures db.Valid() && db.users == old(db.users) && db.posts == old(db.posts)
    ensures db.Snapshot() == PM.AddLike(old(db.Snapshot()), me, post.id)
  {
    ghost var s := db.Snapshot();
    PM.AddLikeKeepsInv(s, me, post.id);
    db.likes := db.likes + {(me, post.id)};
    post.IncrementLikesCount();
    db.OnePostChanged(post);
    assert db.Snapshot() == PM.AddLike(s, me, post.id);
  }

  method LikePost(db: Database, caller: Option<UserId>, id: PostId, delivered: bool) returns (r: Result<PM.PostView>)
    requires db.Valid()
    modifies db, db.posts.Values
    ensures db.Valid()
    ensures Realizes(PM.LikePost(old(db.Snapshot()), caller, id), r, old(db.Snapshot()), db.Snapshot())
  {
    ghost var s := db.Snapshot();
    if caller.None? || id !in db.posts {
      return Err(NotFound);
    }
    var me := caller.value;
    var post := db.posts[id];
    if me !in db.users {
      return Err(NotFound);
    }
    var user := db.users[me];
    if (me, id) in db.likes {
      return Err(BadRequest);
    }
    ghost var spec := PM.LikePost(s, caller, id);
    ghost var s1 := PM.AddLike(s, me, id);
    assert spec.value.1 == if post.author != me then NM.CreateLikeNotification(s1, me, id) else s1;
    PM.LikePostPreserves(s, caller, id);
    RecordLike(db, post, me);
    if post.author != me {
      NotificationService.CreateLikeNotification(db, user, post, delivered);
    }
    r := Ok(PM.PostViewOf(db.Snapshot(), post.Row(), caller));
    assert Realizes(spec, r, s, db.Snapshot());
  }

  /** Deletes the like row and lowers the post's counter. */
  method RemoveLike(db: Database, post: Post, me: UserId)
    requires db.Valid() && post.id in db.posts && db.posts[post.id] == post
    requires (me, post.id) in db.likes
    modifies db`likes, post
    ensures db.Valid() && db.users == old(db.users) && db.posts == old(db.posts)
    ensures db.Snapshot() == PM.UnlikePost(old(db.Snapshot()), Some(me), post.id).value.1
  {
    ghost var s := db.Snapshot();
    PM.UnlikePostPreserves(s, Some(me), post.id);
    db.likes := db.likes - {(me, post.id)};
    post.DecrementLikesCount();
    db.OnePostChanged(post);
    assert db.Snapshot() == PM.UnlikePost(s, Some(me), post.id).value.1;
  }

  method UnlikePost(db: Database, caller: Option<UserId>, id: PostId) returns (r: Result<PM.PostView>)
    requires db.Valid()
    modifies db`likes, db.posts.Values
    ensures db.Valid()
    ensures Realizes(PM.UnlikePost(old(db.Snapshot()), caller, id), r, old(db.Snapshot()), db.Snapshot())
  {
    ghost var s := db.Snapshot();
    if caller.None? || id !in db.posts {
      return Err(NotFound);
    }
    var me := caller.value;
    var post := db.posts[id];
    if (me, id) !in db.likes {
      return Err(BadRequest);
    }
    RemoveLike(db, post, me);
    r := Ok(PM.PostViewOf(db.Snapshot(), post.Row(), caller));
  }
}
