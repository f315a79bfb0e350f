/** The user service as methods on the persistence context: following goes
    through the `User` objects' own helpers, and each method is proved to
    commit what the matching function of `UserModel` describes. */
module UserService {
  import opened Common
  import opened State
  import opened UserEntity
  import opened Persistence
  import UM = UserModel
  import NotificationService
  import NM = NotificationModel

  /** Records on both user objects that `current` now follows `other`. */
  method AddFollow(db: Database, current: User, other: User)
    requires db.Valid()
    requires current.id in db.users && db.users[current.id] == current
    requires other.id in db.users && db.users[other.id] == other
    requires current.id != other.id
    modifies current, other
    ensures db.Valid()
    ensures db.Snapshot() == old(db.Snapshot()).(users := UM.AddEdge(old(db.Snapshot()).users, current.id, other.id))
  {
    ghost var s := db.Snapshot();
    UM.AddEdgeKeepsInv(s, current.id, other.id);
    current.Follow(other);
    db.TwoUsersChanged((current, other));
    assert current.Row() == s.users[current.id].(following := s.users[current.id].following + {other.id});
    assert other.Row() == s.users[other.id].(followers := s.users[other.id].followers + {current.id});
  }

  /** Removes the edge from `current` to `other` on both user objects. */
  method RemoveFollow(db: Database, current: User, other: User)
    requires db.Valid()
    requires current.id in db.users && db.users[current.id] == current
    requires other.id in db.users && db.users[other.id] == other
    requires current.id != other.id
    modifies current, other
    ensures db.Valid()
    ensures db.Snapshot() == old(db.Snapshot()).(users := UM.RemoveEdge(old(db.Snapshot()).users, current.id, other.id))
  {
    ghost var s := db.Snapshot();
    UM.RemoveEdgeKeepsInv(s, current.id, other.id);
    current.Unfollow(other);
    db.TwoUsersChanged((current, other));
    assert current.Row() == s.users[current.id].(following := s.users[current.id].following - {other.id});
    assert other.Row() == s.users[other.id].(followers := s.users[other.id].followers - {current.id});
  }

  method FollowUser(db: Database, caller: Option<UserId>, target: UserId, delivered: bool) returns (r: Result<UM.UserView>)
    requires db.Valid()
    modifies db, db.users.Values
    ensures db.Valid()
    ensures Realizes(UM.FollowUser(old(db.Snapshot()), caller, target), r, old(db.Snapshot()), db.Snapshot())
  {
    ghost var s := db.Snapshot();
    if caller.None? {
      return Err(NotFound);
    }
    var me := caller.value;
    if me == target {
      return Err(BadRequest);
    }
    if me !in db.users || target !in db.users {
      return Err(NotFound);
    }
    var current := db.users[me];
    var other := db.users[target];
    if current.IsFollowing(other) {
      return Err(BadRequest);
    }
    ghost var edged := UM.AddEdge(s.users, me, target);
    ghost var spec := UM.FollowUser(s, caller, target);
    assert spec == Ok((UM.UserViewOf(spec.value.1, target, caller), spec.value.1));
    assert spec.value.1 == NM.CreateFollowNotification(s.(users := edged), me, target);
    UM.FollowUserPreserves(s, caller, target);
    AddFollow(db, current, other);
    NotificationService.CreateFollowNotification(db, current, other, delivered);
    r := Ok(UM.UserViewOf(db.Snapshot(), target, caller));
    assert Realizes(spec, r, s, db.Snapshot());
  }

  method UnfollowUser(db: Database, caller: Option<UserId>, target: UserId) returns (r: Result<UM.UserView>)
    requires db.Valid()
    modifies db.users.Values
    ensures db.Valid()
    ensures Realizes(UM.UnfollowUser(old(db.Snapshot()), caller, target), r, old(db.Snapshot()), db.Snapshot())
  {
    ghost var s := db.Snapshot();
    if caller.None? {
      return Err(NotFound);
    }
    var me := caller.value;
    if me == target {
      return Err(BadRequest);
    }
    if me !in db.users || target !in db.users {
      return Err(NotFound);
    }
    var current := db.users[me];
    var other := db.users[target];
    if !current.IsFollowing(other) {
      return Err(BadRequest);
    }
    ghost var cut := UM.RemoveEdge(s.users, me, target);
    ghost var spec := UM.UnfollowUser(s, caller, target);
    assert spec == Ok((UM.UserViewOf(s.(users := cut), target, caller), s.(users := cut)));
    RemoveFollow(db, current, other);
    assert db.Snapshot() == spec.value.1;
    r := Ok(UM.UserViewOf(db.Snapshot(), target, caller));
    assert Realizes(spec, r, s, db.Snapshot());
  }

  /** Stores `profile` on `user`'s object. */
  method SetProfile(db: Database, user: User, profile: Profile)
    requires db.Valid() && user.id in db.users && db.users[user.id] == user
    modifies user
    ensures db.Valid()
    ensures db.Snapshot() == old(db.Snapshot()).(users := old(db.Snapshot()).users[user.id := old(user.Row()).(profile := profile)])
  {
    ghost var s := db.Snapshot();
    UM.SetProfileKeepsInv(s, user.id, profile);
    user.profile := profile;
    db.TwoUsersChanged((user, user));
  }

  /** Copies each field the request carries onto the caller's profile. */
  method UpdateProfile(db: Database, caller: Option<UserId>, req: UM.ProfileUpdate) returns (r: Result<UM.UserView>)
    requires db.Valid()
    modifies db.users.Values
    ensures db.Valid()
    ensures Realizes(UM.UpdateProfile(old(db.Snapshot()), caller, req), r, old(db.Snapshot()), db.Snapshot())
  {
    ghost var s := db.Snapshot();
    if caller.None? || caller.value !in db.users {
      return Err(NotFound);
    }
    var me := caller.value;
    var user := db.users[me];
    ghost var spec := UM.UpdateProfile(s, caller, req);
    ghost var row := s.users[me].(profile := UM.ApplyUpdate(s.users[me].profile, req));
    assert spec.value.1 == s.(users := s.users[me := row]);
    var profile := user.profile;
    if req.fullName.Some? {
      profile := profile.(fullName := req.fullName);
    }
    if req.bio.Some? {
      profile := profile.(bio := req.bio);
    }
    if req.location.Some? {
      profile := profile.(location := req.location);
    }
    if req.website.Some? {
      profile := profile.(website := req.website);
    }
    assert profile == row.profile;
    SetProfile(db, user, profile);
    r := Ok(UM.UserViewOf(db.Snapshot(), me, caller));
  }
}
