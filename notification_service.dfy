/** The notification service as methods on the persistence context. Each
    method is proved to commit what the matching function of
    `NotificationModel` describes. Whether live delivery succeeds is an input
    (`delivered`); it decides only what reaches the outbox. */
module NotificationService {
  import opened Common
  import opened State
  import opened UserEntity
  import opened PostEntity
  import opened Persistence
  import NM = NotificationModel

  /** Pushes notification `id` to its recipient when delivery succeeds; a
      failed delivery is swallowed and changes nothing. */
  method SendWebSocketNotification(db: Database, id: NotificationId, delivered: bool)
    requires id in db.notifications
    modifies db`outbox
    ensures delivered ==> db.outbox == old(db.outbox) + [(db.notifications[id].recipient, NM.ViewOf(id, db.notifications[id]))]
    ensures !delivered ==> db.outbox == old(db.outbox)
  {
    if delivered {
      db.outbox := db.outbox + [(db.notifications[id].recipient, NM.ViewOf(id, db.notifications[id]))];
    }
  }

  /** Saves `row` under the next identity, then tries to deliver it. */
  method Save(db: Database, row: NotificationRow, delivered: bool)
    requires db.Valid() && row.recipient in db.users
    modifies db
    ensures db.Valid()
    ensures db.Snapshot() == NM.Notify(old(db.Snapshot()), row)
    ensures db.users == old(db.users) && db.posts == old(db.posts)
  {
    ghost var s := db.Snapshot();
    NM.NotifyPreserves(s, row);
    var id := db.nextNotificationId;
    db.notifications := db.notifications[id := row];
    db.nextNotificationId := id + 1;
    SendWebSocketNotification(db, id, delivered);
    assert db.UserRows() == s.users && db.PostRows() == s.posts;
    assert db.Snapshot() == NM.Notify(s, row);
  }

  method CreateLikeNotification(db: Database, sender: User, post: Post, delivered: bool)
    requires db.Valid()
    requires sender.id in db.users && db.users[sender.id] == sender
    requires post.id in db.posts && db.posts[post.id] == post
    modifies db
    ensures db.Valid()
    ensures db.Snapshot() == NM.CreateLikeNotification(old(db.Snapshot()), sender.id, post.id)
    ensures db.users == old(db.users) && db.posts == old(db.posts)
  {
    assert db.Snapshot().posts[post.id] == post.Row();
    Save(db, NotificationRow(Like, sender.profile.username + " liked your post",
                             post.author, Some(sender.id), Some(post.id), None, false), delivered);
  }

  method CreateCommentNotification(db: Database, sender: User, post: Post, delivered: bool)
    requires db.Valid()
    requires sender.id in db.users && db.users[sender.id] == sender
    requires post.id in db.posts && db.posts[post.id] == post
    modifies db
    ensures db.Valid()
    ensures db.Snapshot() == NM.CreateCommentNotification(old(db.Snapshot()), sender.id, post.id)
    ensures db.users == old(db.users) && db.posts == old(db.posts)
  {
    assert db.Snapshot().posts[post.id] == post.Row();
    Save(db, NotificationRow(Comment, sender.profile.username + " commented on your post",
                             post.author, Some(sender.id), Some(post.id), None, false), delivered);
  }

  method CreateReplyNotification(db: Database, sender: User, parentId: CommentId, parent: CommentRow, delivered: bool)
    requires db.Valid()
    requires sender.id in db.users && db.users[sender.id] == sender
    requires parent.author in db.users
    modifies db
    ensures db.Valid()
    ensures db.Snapshot() == NM.CreateReplyNotification(old(db.Snapshot()), sender.id, parentId, parent)
    ensures db.users == old(db.users) && db.posts == old(db.posts)
  {
    Save(db, NotificationRow(Reply, sender.profile.username + " replied to your comment",
                             parent.author, Some(sender.id), Some(parent.post), Some(parentId), false), delivered);
  }

  method CreateFollowNotification(db: Database, sender: User, recipient: User, delivered: bool)
    requires db.Valid()
    requires sender.id in db.users && db.users[sender.id] == sender
    requires recipient.id in db.users && db.users[recipient.id] == recipient
    modifies db
    ensures db.Valid()
    ensures db.Snapshot() == NM.CreateFollowNotification(old(db.Snapshot()), sender.id, recipient.id)
    ensures db.users == old(db.users) && db.posts == old(db.posts)
  {
    Save(db, NotificationRow(Follow, sender.profile.username + " started following you",
                             recipient.id, Some(sender.id), None, None, false), delivered);
  }

  method MarkAsRead(db: Database, caller: Option<UserId>, id: NotificationId) returns (r: Result<NM.NotificationView>)
    requires db.Valid()
    modifies db`notifications
    ensures db.Valid()
    ensures Realizes(NM.MarkAsRead(old(db.Snapshot()), caller, id), r, old(db.Snapshot()), db.Snapshot())
  {
    if caller.None? {
      return Err(NotFound);
    }
    if id !in db.notifications {
      return Err(NotFound);
    }
    var n := db.notifications[id];
    if n.recipient != caller.value {
      return Err(BadRequest);
    }
    ghost var s := db.Snapshot();
    NM.MarkAsReadPreserves(s, caller, id);
    n := n.(isRead := true);
    db.notifications := db.notifications[id := n];
    assert db.UserRows() == s.users && db.PostRows() == s.posts;
    assert db.Snapshot() == NM.MarkAsRead(s, caller, id).value.1;
    r := Ok(NM.ViewOf(id, n));
  }

  /** Sets the read flag on each of `me`'s notifications in turn, scanning
      the identities the table has handed out. */
  method MarkEachRead(ns: map<NotificationId, NotificationRow>, me: UserId, next: nat) returns (r: map<NotificationId, NotificationRow>)
    requires forall n :: n in ns ==> 0 <= n < next
    ensures r == NM.AllRead(ns, me)
  {
    r := ns;
    for i := 0 to next
      invariant r.Keys == ns.Keys
      invariant forall n :: n in ns ==>
        r[n] == if ns[n].recipient == me && n < i then ns[n].(isRead := true) else ns[n]
    {
      if i in r && r[i].recipient == me {
        r := r[i := r[i].(isRead := true)];
      }
    }
    assert forall n :: n in ns ==> r[n] == NM.AllRead(ns, me)[n];
  }

  method MarkAllAsRead(db: Database, caller: Option<UserId>) returns (r: Result<()>)
    requires db.Valid()
    modifies db`notifications
    ensures db.Valid()
    ensures Realizes(NM.MarkAllAsRead(old(db.Snapshot()), caller), r, old(db.Snapshot()), db.Snapshot())
  {
    if caller.None? {
      return Err(NotFound);
    }
    ghost var s := db.Snapshot();
    NM.MarkAllAsReadPreserves(s, caller);
    db.notifications := MarkEachRead(db.notifications, caller.value, db.nextNotificationId);
    assert db.notifications == NM.MarkAllAsRead(s, caller).value.1.notifications;
    assert db.UserRows() == s.users && db.PostRows() == s.posts;
    assert db.Snapshot() == NM.MarkAllAsRead(s, caller).value.1;
    r := Ok(());
  }

  method DeleteNotification(db: Database, caller: Option<UserId>, id: NotificationId) returns (r: Result<()>)
    requires db.Valid()
    modifies db`notifications
    ensures db.Valid()
    ensures Realizes(NM.DeleteNotification(old(db.Snapshot()), caller, id), r, old(db.Snapshot()), db.Snapshot())
  {
    if caller.None? {
      return Err(NotFound);
    }
    if id !in db.notifications {
      return Err(NotFound);
    }
    if db.notifications[id].recipient != caller.value {
      return Err(BadRequest);
    }
    ghost var s := db.Snapshot();
    NM.DeleteNotificationPreserves(s, caller, id);
    db.notifications := db.notifications - {id};
    assert db.UserRows() == s.users && db.PostRows() == s.posts;
    assert db.Snapshot() == NM.DeleteNotification(s, caller, id).value.1;
    r := Ok(());
  }

  method DeleteAllNotifications(db: Database, caller: Option<UserId>) returns (r: Result<()>)
    requires db.Valid()
    modifies db`notifications
    ensures db.Valid()
    ensures Realizes(NM.DeleteAllNotifications(old(db.Snapshot()), caller), r, old(db.Snapshot()), db.Snapshot())
  {
    if caller.None? {
      return Err(NotFound);
    }
    var me := caller.value;
    ghost var s := db.Snapshot();
    NM.DeleteAllNotificationsPreserves(s, caller);
    db.notifications := map n | n in db.notifications && db.notifications[n].recipient != me :: db.notifications[n];
    assert db.UserRows() == s.users && db.PostRows() == s.posts;
    assert db.Snapshot() == NM.DeleteAllNotifications(s, caller).value.1;
    r := Ok(());
  }
}
