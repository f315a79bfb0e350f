/** The persistence context the services work in: users and posts are objects
    updated in place, the other tables are rows, and each table hands out the
    next identity. `Snapshot` is the committed state these objects and rows
    stand for. */
module Persistence {
  import opened Common
  import opened State
  import opened UserEntity
  import opened PostEntity
  import NotificationModel

  class Database {
    var users: map<UserId, User>
    var posts: map<PostId, Post>
    var likes: set<(UserId, PostId)>
    var comments: map<CommentId, CommentRow>
    var notifications: map<NotificationId, NotificationRow>
    var nextPostId: nat
    var nextCommentId: nat
    var nextNotificationId: nat
    /** The notifications pushed to connected clients, each with the user it
        went to. It is not part of the committed state. */
    var outbox: seq<(UserId, NotificationModel.NotificationView)>

    function UserRows(): map<UserId, UserRow>
      reads this`users, users.Values
    {
      map u | u in users :: users[u].Row()
    }

    function PostRows(): map<PostId, PostRow>
      reads this`posts, posts.Values
    {
      map p | p in posts :: posts[p].Row()
    }

    /** The committed state the objects and rows stand for. */
    function Snapshot(): DbState
      reads this, users.Values, posts.Values
    {
      DbState(UserRows(), PostRows(), likes, comments, notifications,
              nextPostId, nextCommentId, nextNotificationId)
    }

    /** Every object is stored under its own identity, counters are never
        negative, and the committed state satisfies the invariants. */
    ghost predicate Valid()
      reads this, users.Values, posts.Values
    {
      && (forall u :: u in users ==> users[u].id == u)
      && (forall p :: p in posts ==> posts[p].id == p && posts[p].Valid())
      && Inv(Snapshot())
    }

    /** The context is valid once its objects are stored under their own
        identities and valid and it stands for a state `t` satisfying the
        invariants. */
    lemma ValidWhen(t: DbState)
      requires forall u :: u in users ==> users[u].id == u
      requires forall p :: p in posts ==> posts[p].id == p && posts[p].Valid()
      requires Snapshot() == t && Inv(t)
      ensures Valid()
    {
    }

    /** When only user objects changed, the posts keep their rows and the
        committed state differs at most in the users table. */
    twostate lemma UsersOnlyChanged()
      requires unchanged(this)
      requires forall p :: p in posts ==> unchanged(posts[p])
      ensures PostRows() == old(PostRows())
      ensures forall p :: p in posts ==> posts[p].Valid() == old(posts[p].Valid())
      ensures Snapshot() == old(Snapshot()).(users := UserRows())
    {
      forall p | p in posts
        ensures posts[p].Row() == old(posts[p].Row())
        ensures posts[p].Valid() == old(posts[p].Valid())
      {
        assert unchanged(posts[p]);
      }
    }

    /** When at most the two user objects of `changed` (possibly one object
        twice) were updated, the users table holds their new rows and every
        other row as it was. */
    twostate lemma TwoUsersChanged(changed: (User, User))
      requires unchanged(this)
      requires forall u :: u in users ==> users[u].id == u
      requires changed.0.id in users && users[changed.0.id] == changed.0
      requires changed.1.id in users && users[changed.1.id] == changed.1
      requires forall u :: u in users && users[u] != changed.0 && users[u] != changed.1 ==> unchanged(users[u])
      requires forall p :: p in posts ==> unchanged(posts[p])
      ensures UserRows() == old(UserRows())[changed.0.id := changed.0.Row()][changed.1.id := changed.1.Row()]
      ensures forall p :: p in posts ==> posts[p].Valid() == old(posts[p].Valid())
      ensures Snapshot() == old(Snapshot()).(users := UserRows())
    {
      UsersOnlyChanged();
      forall u | u in users && u != changed.0.id && u != changed.1.id
        ensures users[u].Row() == old(users[u].Row())
      {
        assert unchanged(users[u]);
      }
    }

    /** Only `post` changed among the post objects: the posts table holds its
        new row and every other row as it was. */
    twostate lemma OnePostChanged(post: Post)
      requires posts == old(posts) && post.id in posts && posts[post.id] == post
      requires forall p :: p in posts ==> posts[p].id == p
      requires forall p :: p in posts && posts[p] != post ==> unchanged(posts[p])
      requires users == old(users) && forall u :: u in users ==> unchanged(users[u])
      ensures PostRows() == old(PostRows())[post.id := post.Row()]
      ensures forall p :: p in posts && p != post.id ==> posts[p].Valid() == old(posts[p].Valid())
      ensures UserRows() == old(UserRows())
    {
      forall u | u in users ensures users[u].Row() == old(users[u].Row()) {
        assert unchanged(users[u]);
      }
      forall p | p in posts && p != post.id
        ensures posts[p].Row() == old(posts[p].Row())
        ensures posts[p].Valid() == old(posts[p].Valid())
      {
        assert unchanged(posts[p]);
      }
    }

    /** A freshly created `post` was added to the posts table. */
    twostate lemma PostAdded(new post: Post)
      requires fresh(post) && post.id !in old(posts) && posts == old(posts)[post.id := post]
      requires forall p :: p in old(posts) ==> unchanged(posts[p])
      ensures PostRows() == old(PostRows())[post.id := post.Row()]
      ensures forall p :: p in old(posts) ==> posts[p].Valid() == old(posts[p].Valid())
    {
      forall p | p in old(posts)
        ensures posts[p].Row() == old(posts[p].Row())
        ensures posts[p].Valid() == old(posts[p].Valid())
      {
        assert unchanged(posts[p]);
      }
    }

    /** The post under `id` was removed from the posts table. */
    twostate lemma PostRemoved(id: PostId)
      requires posts == old(posts) - {id}
      requires forall p :: p in posts ==> unchanged(posts[p])
      requires users == old(users) && forall u :: u in users ==> unchanged(users[u])
      ensures PostRows() == old(PostRows()) - {id}
      ensures forall p :: p in posts ==> posts[p].Valid() == old(posts[p].Valid())
      ensures UserRows() == old(UserRows())
    {
      forall u | u in users ensures users[u].Row() == old(users[u].Row()) {
        assert unchanged(users[u]);
      }
      forall p | p in posts
        ensures posts[p].Row() == old(posts[p].Row())
        ensures posts[p].Valid() == old(posts[p].Valid())
      {
        assert unchanged(posts[p]);
      }
    }
  }
}
