/** The notification store as functions over the committed state: creation of
    the four kinds the services raise, the unread count, marking read and
    deleting, one at a time or all of the caller's at once. */
module NotificationModel {
  import opened Common
  import opened State

  /** What the store hands back for one notification. */
  datatype NotificationView = NotificationView(
    id: NotificationId,
    kind: NotificationType,
    message: string,
    sender: Option<UserId>,
    post: Option<PostId>,
    comment: Option<CommentId>,
    isRead: bool)

  function ViewOf(id: NotificationId, n: NotificationRow): NotificationView
  {
    NotificationView(id, n.kind, n.message, n.sender, n.post, n.comment, n.isRead)
  }

  /** The identities of the notifications addressed to `u`. */
  function Mine(s: DbState, u: UserId): set<NotificationId>
  {
    set n | n in s.notifications && s.notifications[n].recipient == u
  }

  /** The identities of `u`'s notifications that are still unread. */
  function UnreadIds(s: DbState, u: UserId): set<NotificationId>
  {
    set n | n in s.notifications && s.notifications[n].recipient == u && !s.notifications[n].isRead
  }

  // ---------------------------------------------------------------- creation

  /** Saves `row` under the next notification identity. */
  function Notify(s: DbState, row: NotificationRow): DbState
  {
    s.(notifications := s.notifications[s.nextNotificationId := row],
       nextNotificationId := s.nextNotificationId + 1)
  }

  /** `r` holds one more notification than `s`: at identity `s.nextNotificationId`,
      unread, of kind `kind`, from `sender` to `recipient` about `post` and
      `comment`; nothing else differs. */
  ghost predicate CreatedOne(s: DbState, r: DbState, kind: NotificationType, sender: UserId,
                             recipient: UserId, post: Option<PostId>, comment: Option<CommentId>)
  {
    var id := s.nextNotificationId;
    && id in r.notifications
    && r.notifications[id].kind == kind
    && r.notifications[id].recipient == recipient
    && r.notifications[id].sender == Some(sender)
    && r.notifications[id].post == post
    && r.notifications[id].comment == comment
    && !r.notifications[id].isRead
    && r == Notify(s, r.notifications[id])
  }

  function CreateLikeNotification(s: DbState, sender: UserId, post: PostId): (r: DbState)
    requires sender in s.users && post in s.posts
    ensures CreatedOne(s, r, Like, sender, s.posts[post].author, Some(post), None)
    ensures r.notifications[s.nextNotificationId].message == s.users[sender].profile.username + " liked your post"
  {
    Notify(s, NotificationRow(Like, s.users[sender].profile.username + " liked your post",
                              s.posts[post].author, Some(sender), Some(post), None, false))
  }

  function CreateCommentNotification(s: DbState, sender: UserId, post: PostId): (r: DbState)
    requires sender in s.users && post in s.posts
    ensures CreatedOne(s, r, Comment, sender, s.posts[post].author, Some(post), None)
    ensures r.notifications[s.nextNotificationId].message == s.users[sender].profile.username + " commented on your post"
  {
    Notify(s, NotificationRow(Comment, s.users[sender].profile.username + " commented on your post",
                              s.posts[post].author, Some(sender), Some(post), None, false))
  }

  /** A reply is reported to the author of the parent comment `parent` (stored
      under `parentId`), about that comment and its post. */
  function CreateReplyNotification(s: DbState, sender: UserId, parentId: CommentId, parent: CommentRow): (r: DbState)
    requires sender in s.users
    ensures CreatedOne(s, r, Reply, sender, parent.author, Some(parent.post), Some(parentId))
    ensures r.notifications[s.nextNotificationId].message == s.users[sender].profile.username + " replied to your comment"
  {
    Notify(s, NotificationRow(Reply, s.users[sender].profile.username + " replied to your comment",
                              parent.author, Some(sender), Some(parent.post), Some(parentId), false))
  }

  function CreateFollowNotification(s: DbState, sender: UserId, recipient: UserId): (r: DbState)
    requires sender in s.users && recipient in s.users
    ensures CreatedOne(s, r, Follow, sender, recipient, None, None)
    ensures r.notifications[s.nextNotificationId].message == s.users[sender].profile.username + " started following you"
  {
    Notify(s, NotificationRow(Follow, s.users[sender].profile.username + " started following you",
                              recipient, Some(sender), None, None, false))
  }

  // ---------------------------------------------------------------- operations

  /** The caller's unread count; an anonymous caller is refused. */
  function GetUnreadCount(s: DbState, caller: Option<UserId>): (r: Result<nat>)
    ensures r.Err? <==> caller.None?
    ensures r.Err? ==> r.error == NotFound
    ensures r.Ok? ==> r.value == |UnreadIds(s, caller.value)|
  {
    match caller
    case None => Err(NotFound)
    case Some(u) => Ok(|UnreadIds(s, u)|)
  }

  function MarkAsRead(s: DbState, caller: Option<UserId>, id: NotificationId): (r: Outcome<NotificationView>)
    ensures caller.None? ==> r == Err(NotFound)
    ensures caller.Some? && id !in s.notifications ==> r == Err(NotFound)
    ensures caller.Some? && id in s.notifications && s.notifications[id].recipient != caller.value ==> r == Err(BadRequest)
    ensures r.Ok? <==> caller.Some? && id in s.notifications && s.notifications[id].recipient == caller.value
    ensures r.Ok? ==>
      && r.value.1 == s.(notifications := s.notifications[id := s.notifications[id].(isRead := true)])
      && r.value.0.id == id && r.value.0.isRead
      && r.value.0 == ViewOf(id, r.value.1.notifications[id])
  {
    match caller
    case None => Err(NotFound)
    case Some(u) =>
      if id !in s.notifications then Err(NotFound)
      else if s.notifications[id].recipient != u then Err(BadRequest)
      else
        var n := s.notifications[id].(isRead := true);
        Ok((ViewOf(id, n), s.(notifications := s.notifications[id := n])))
  }

  /** Every notification addressed to `u` marked read; the others as they were. */
  function AllRead(ns: map<NotificationId, NotificationRow>, u: UserId): (r: map<NotificationId, NotificationRow>)
    ensures r.Keys == ns.Keys
  {
    map n | n in ns :: if ns[n].recipient == u then ns[n].(isRead := true) else ns[n]
  }

  function MarkAllAsRead(s: DbState, caller: Option<UserId>): (r: Outcome<()>)
    ensures r.Err? <==> caller.None?
    ensures r.Err? ==> r.error == NotFound
    ensures r.Ok? ==> r.value.1 == s.(notifications := r.value.1.notifications)
    ensures r.Ok? ==> forall n :: n in s.notifications <==> n in r.value.1.notifications
    ensures r.Ok? ==> forall n :: n in s.notifications ==>
      r.value.1.notifications[n] ==
        if s.notifications[n].recipient == caller.value then s.notifications[n].(isRead := true)
        else s.notifications[n]
  {
    match caller
    case None => Err(NotFound)
    case Some(u) => Ok(((), s.(notifications := AllRead(s.notifications, u))))
  }

  function DeleteNotification(s: DbState, caller: Option<UserId>, id: NotificationId): (r: Outcome<()>)
    ensures caller.None? ==> r == Err(NotFound)
    ensures caller.Some? && id !in s.notifications ==> r == Err(NotFound)
    ensures caller.Some? && id in s.notifications && s.notifications[id].recipient != caller.value ==> r == Err(BadRequest)
    ensures r.Ok? <==> caller.Some? && id in s.notifications && s.notifications[id].recipient == caller.value
    ensures r.Ok? ==> r.value.1 == s.(notifications := s.notifications - {id})
  {
    match caller
    case None => Err(NotFound)
    case Some(u) =>
      if id !in s.notifications then Err(NotFound)
      else if s.notifications[id].recipient != u then Err(BadRequest)
      else Ok(((), s.(notifications := s.notifications - {id})))
  }

  function DeleteAllNotifications(s: DbState, caller: Option<UserId>): (r: Outcome<()>)
    ensures r.Err? <==> caller.None?
    ensures r.Err? ==> r.error == NotFound
    ensures r.Ok? ==> r.value.1 == s.(notifications := s.notifications - Mine(s, caller.value))
  {
    match caller
    case None => Err(NotFound)
    case Some(u) =>
      Ok(((), s.(notifications := map n | n in s.notifications && s.notifications[n].recipient != u :: s.notifications[n])))
  }

  // ---------------------------------------------------------------- properties

  /** Saving a notification adds exactly one record under a fresh identity
      and keeps every other record. */
  lemma NotifyAddsOne(s: DbState, row: NotificationRow)
    requires NotificationsOk(s)
    ensures var r := Notify(s, row);
      && s.nextNotificationId !in s.notifications
      && r.notifications.Keys == s.notifications.Keys + {s.nextNotificationId}
      && |r.notifications| == |s.notifications| + 1
      && (forall n :: n in s.notifications ==> r.notifications[n] == s.notifications[n])
  {
    var id := s.nextNotificationId;
    var ns := s.notifications[id := row];
    assert id !in s.notifications;
    assert ns.Keys == s.notifications.Keys + {id};
    assert |ns.Keys| == |s.notifications.Keys| + 1;
  }

  /** An unread notification adds one to its recipient's unread count and to
      nobody else's. */
  lemma NotifyCountsUnread(s: DbState, row: NotificationRow)
    requires NotificationsOk(s) && !row.isRead
    ensures var r := Notify(s, row);
      && UnreadIds(r, row.recipient) == UnreadIds(s, row.recipient) + {s.nextNotificationId}
      && |UnreadIds(r, row.recipient)| == |UnreadIds(s, row.recipient)| + 1
      && (forall u :: u != row.recipient ==> UnreadIds(r, u) == UnreadIds(s, u))
  {
    var r := Notify(s, row);
    var id := s.nextNotificationId;
    assert id !in s.notifications;
    assert UnreadIds(r, row.recipient) == UnreadIds(s, row.recipient) + {id};
    forall u | u != row.recipient ensures UnreadIds(r, u) == UnreadIds(s, u) {
      assert id !in UnreadIds(r, u);
    }
  }

  /** Saving a notification for an existing user keeps every invariant, and
      changes no read flag. */
  lemma NotifyPreserves(s: DbState, row: NotificationRow)
    requires Inv(s) && row.recipient in s.users
    ensures Inv(Notify(s, row)) && ReadStaysRead(s, Notify(s, row))
  {
    var r := Notify(s, row);
    assert s.nextNotificationId !in s.notifications;
    assert forall n :: n in s.notifications ==> r.notifications[n] == s.notifications[n];
  }

  /** After a successful `MarkAsRead`, that notification is no longer unread, and
      nobody else's unread set changes. */
  lemma MarkAsReadClearsOne(s: DbState, caller: Option<UserId>, id: NotificationId)
    requires MarkAsRead(s, caller, id).Ok?
    ensures var t := MarkAsRead(s, caller, id).value.1;
      && UnreadIds(t, caller.value) == UnreadIds(s, caller.value) - {id}
      && (forall u :: u != caller.value ==> UnreadIds(t, u) == UnreadIds(s, u))
  {
    var t := MarkAsRead(s, caller, id).value.1;
    assert UnreadIds(t, caller.value) == UnreadIds(s, caller.value) - {id};
    forall u | u != caller.value ensures UnreadIds(t, u) == UnreadIds(s, u) {
      assert id !in UnreadIds(s, u);
    }
  }

  /** Marking the same notification read a second time changes nothing. */
  lemma MarkAsReadIdempotent(s: DbState, caller: Option<UserId>, id: NotificationId)
    requires MarkAsRead(s, caller, id).Ok?
    ensures var t := MarkAsRead(s, caller, id).value.1;
      MarkAsRead(t, caller, id).Ok? && MarkAsRead(t, caller, id).value.1 == t
  {
    var t := MarkAsRead(s, caller, id).value.1;
    assert t.notifications[id].(isRead := true) == t.notifications[id];
    assert t.notifications[id := t.notifications[id]] == t.notifications;
  }

  /** After `MarkAllAsRead`, the caller has no unread notification and the
      unread sets of all other users are as before. */
  lemma MarkAllAsReadClears(s: DbState, caller: Option<UserId>)
    requires caller.Some?
    ensures var t := MarkAllAsRead(s, caller).value.1;
      && UnreadIds(t, caller.value) == {}
      && GetUnreadCount(t, caller) == Ok(0)
      && (forall u :: u != caller.value ==> UnreadIds(t, u) == UnreadIds(s, u))
  {
    var t := MarkAllAsRead(s, caller).value.1;
    assert UnreadIds(t, caller.value) == {} by {
      forall n | n in t.notifications && t.notifications[n].recipient == caller.value
        ensures t.notifications[n].isRead
      {
      }
    }
    forall u | u != caller.value ensures UnreadIds(t, u) == UnreadIds(s, u) {
      assert forall n :: n in s.notifications && s.notifications[n].recipient == u ==>
        t.notifications[n] == s.notifications[n];
    }
  }

  /** `DeleteNotification` removes that one record and keeps every other one. */
  lemma DeleteNotificationRemovesOne(s: DbState, caller: Option<UserId>, id: NotificationId)
    requires DeleteNotification(s, caller, id).Ok?
    ensures var t := DeleteNotification(s, caller, id).value.1;
      && |t.notifications| == |s.notifications| - 1
      && id !in t.notifications
      && (forall n :: n in s.notifications && n != id ==> n in t.notifications && t.notifications[n] == s.notifications[n])
  {
  }

  /** `DeleteAllNotifications` leaves the caller with no notification and keeps
      every notification of everybody else. */
  lemma DeleteAllRemovesMine(s: DbState, caller: Option<UserId>)
    requires caller.Some?
    ensures var t := DeleteAllNotifications(s, caller).value.1;
      && Mine(t, caller.value) == {}
      && GetUnreadCount(t, caller) == Ok(0)
      && (forall u :: u != caller.value ==> Mine(t, u) == Mine(s, u) && UnreadIds(t, u) == UnreadIds(s, u))
  {
    var t := DeleteAllNotifications(s, caller).value.1;
    assert UnreadIds(t, caller.value) == {} by {
      assert forall n :: n in t.notifications ==> t.notifications[n].recipient != caller.value;
    }
  }

  /** Every notification operation keeps the invariants and never turns a read
      notification back into an unread one. */
  lemma MarkAsReadPreserves(s: DbState, caller: Option<UserId>, id: NotificationId)
    requires Inv(s) && MarkAsRead(s, caller, id).Ok?
    ensures Inv(MarkAsRead(s, caller, id).value.1)
    ensures ReadStaysRead(s, MarkAsRead(s, caller, id).value.1)
  {
  }

  lemma MarkAllAsReadPreserves(s: DbState, caller: Option<UserId>)
    requires Inv(s) && MarkAllAsRead(s, caller).Ok?
    ensures Inv(MarkAllAsRead(s, caller).value.1)
    ensures ReadStaysRead(s, MarkAllAsRead(s, caller).value.1)
  {
  }

  lemma DeleteNotificationPreserves(s: DbState, caller: Option<UserId>, id: NotificationId)
    requires Inv(s) && DeleteNotification(s, caller, id).Ok?
    ensures Inv(DeleteNotification(s, caller, id).value.1)
    ensures ReadStaysRead(s, DeleteNotification(s, caller, id).value.1)
  {
  }

  lemma DeleteAllNotificationsPreserves(s: DbState, caller: Option<UserId>)
    requires Inv(s) && DeleteAllNotifications(s, caller).Ok?
    ensures Inv(DeleteAllNotifications(s, caller).value.1)
    ensures ReadStaysRead(s, DeleteAllNotifications(s, caller).value.1)
  {
  }
}
