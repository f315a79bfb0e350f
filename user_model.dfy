/** The user operations as functions over the committed state: following and
    unfollowing, profile updates, the follower and followee listings, and the
    user view with its relationship fields. */
module UserModel {
  import opened Common
  import opened State
  import PostRepository
  import NotificationModel

  /** What the service hands back for one user. */
  datatype UserView = UserView(
    id: UserId,
    profile: Profile,
    followersCount: nat,
    followingCount: nat,
    postsCount: nat,
    isFollowing: Option<bool>,
    isFollowedBy: Option<bool>)

  /** The editable profile fields of an update request; `None` is a field the
      request leaves out. */
  datatype ProfileUpdate = ProfileUpdate(
    fullName: Option<string>,
    bio: Option<string>,
    location: Option<string>,
    website: Option<string>)

  /** The view of user `u` as seen by `viewer`. The relationship fields are
      filled in only for a known viewer other than `u`. */
  function UserViewOf(s: DbState, u: UserId, viewer: Option<UserId>): (v: UserView)
    requires u in s.users
    ensures v.id == u && v.profile == s.users[u].profile
    ensures v.followersCount == |s.users[u].followers| && v.followingCount == |s.users[u].following|
    ensures v.postsCount == |PostRepository.PostIdsBy(s.posts, u, s.nextPostId)|
    ensures v.isFollowing.Some? <==> viewer.Some? && viewer.value != u && viewer.value in s.users
    ensures v.isFollowedBy.Some? <==> v.isFollowing.Some?
    ensures v.isFollowing.Some? ==>
      && v.isFollowing.value == (u in s.users[viewer.value].following)
      && v.isFollowedBy.value == (viewer.value in s.users[u].following)
  {
    PostRepository.CountByAuthorIdCountsPosts(s.posts, s.nextPostId, u);
    var related := viewer.Some? && viewer.value != u && viewer.value in s.users;
    UserView(
      u, s.users[u].profile,
      |s.users[u].followers|, |s.users[u].following|,
      PostRepository.CountByAuthorId(Rows(s), u),
      if related then Some(u in s.users[viewer.value].following) else None,
      if related then Some(viewer.value in s.users[u].following) else None)
  }

  // ---------------------------------------------------------------- follow graph

  /** The users table after `a` follows `b`: `b` joins `a`'s followees and `a`
      joins `b`'s followers. */
  function AddEdge(users: map<UserId, UserRow>, a: UserId, b: UserId): (r: map<UserId, UserRow>)
    requires a in users && b in users
    ensures r.Keys == users.Keys
    ensures r[a].following == users[a].following + {b}
    ensures r[b].followers == users[b].followers + {a}
    ensures forall u :: u in users ==> r[u].profile == users[u].profile
    ensures forall u :: u in users && u != a ==> r[u].following == users[u].following
    ensures forall u :: u in users && u != b ==> r[u].followers == users[u].followers
  {
    var u1 := users[a := users[a].(following := users[a].following + {b})];
    u1[b := u1[b].(followers := u1[b].followers + {a})]
  }

  /** The users table after `a` stops following `b`. */
  function RemoveEdge(users: map<UserId, UserRow>, a: UserId, b: UserId): (r: map<UserId, UserRow>)
    requires a in users && b in users
    ensures r.Keys == users.Keys
    ensures r[a].following == users[a].following - {b}
    ensures r[b].followers == users[b].followers - {a}
    ensures forall u :: u in users ==> r[u].profile == users[u].profile
    ensures forall u :: u in users && u != a ==> r[u].following == users[u].following
    ensures forall u :: u in users && u != b ==> r[u].followers == users[u].followers
  {
    var u1 := users[a := users[a].(following := users[a].following - {b})];
    u1[b := u1[b].(followers := u1[b].followers - {a})]
  }

  function FollowUser(s: DbState, caller: Option<UserId>, target: UserId): (r: Outcome<UserView>)
    ensures caller.None? ==> r == Err(NotFound)
    ensures caller == Some(target) ==> r == Err(BadRequest)
    ensures caller.Some? && caller.value != target && (caller.value !in s.users || target !in s.users) ==>
      r == Err(NotFound)
    ensures (caller.Some? && caller.value != target && caller.value in s.users && target in s.users &&
             target in s.users[caller.value].following) ==> r == Err(BadRequest)
    ensures r.Ok? <==> caller.Some? && caller.value != target && caller.value in s.users && target in s.users &&
                       target !in s.users[caller.value].following
    ensures r.Ok? ==>
      var me, t := caller.value, r.value.1;
      && me != target && me in s.users && target in s.users && target !in s.users[me].following
      && t.users == AddEdge(s.users, me, target)
      && NotificationModel.CreatedOne(s.(users := t.users), t, Follow, me, target, None, None)
      && r.value.0 == UserViewOf(t, target, caller)
      && r.value.0.isFollowing == Some(true)
  {
    match caller
    case None => Err(NotFound)
    case Some(me) =>
      if me == target then Err(BadRequest)
      else if me !in s.users then Err(NotFound)
      else if target !in s.users then Err(NotFound)
      else if target in s.users[me].following then Err(BadRequest)
      else
        var s1 := s.(users := AddEdge(s.users, me, target));
        var s2 := NotificationModel.CreateFollowNotification(s1, me, target);
        Ok((UserViewOf(s2, target, caller), s2))
  }

  function UnfollowUser(s: DbState, caller: Option<UserId>, target: UserId): (r: Outcome<UserView>)
    ensures caller.None? ==> r == Err(NotFound)
    ensures caller == Some(target) ==> r == Err(BadRequest)
    ensures caller.Some? && caller.value != target && (caller.value !in s.users || target !in s.users) ==>
      r == Err(NotFound)
    ensures (caller.Some? && caller.value != target && caller.value in s.users && target in s.users &&
             target !in s.users[caller.value].following) ==> r == Err(BadRequest)
    ensures r.Ok? <==> caller.Some? && caller.value != target && caller.value in s.users && target in s.users &&
                       target in s.users[caller.value].following
    ensures r.Ok? ==>
      var me, t := caller.value, r.value.1;
      && me != target && me in s.users && target in s.users && target in s.users[me].following
      && t == s.(users := RemoveEdge(s.users, me, target))
      && r.value.0 == UserViewOf(t, target, caller)
      && r.value.0.isFollowing == Some(false)
  {
    match caller
    case None => Err(NotFound)
    case Some(me) =>
      if me == target then Err(BadRequest)
      else if me !in s.users then Err(NotFound)
      else if target !in s.users then Err(NotFound)
      else if target !in s.users[me].following then Err(BadRequest)
      else
        var t := s.(users := RemoveEdge(s.users, me, target));
        Ok((UserViewOf(t, target, caller), t))
  }

  // ---------------------------------------------------------------- profile

  /** The profile with every field the request carries replaced. */
  function ApplyUpdate(p: Profile, req: ProfileUpdate): (q: Profile)
    ensures req.fullName.Some? ==> q.fullName == req.fullName
    ensures req.bio.Some? ==> q.bio == req.bio
    ensures req.location.Some? ==> q.location == req.location
    ensures req.website.Some? ==> q.website == req.website
    ensures req.fullName.None? ==> q.fullName == p.fullName
    ensures req.bio.None? ==> q.bio == p.bio
    ensures req.location.None? ==> q.location == p.location
    ensures req.website.None? ==> q.website == p.website
    ensures q.username == p.username && q.email == p.email
    ensures q.profileImageUrl == p.profileImageUrl && q.coverImageUrl == p.coverImageUrl
  {
    var p1 := if req.fullName.Some? then p.(fullName := req.fullName) else p;
    var p2 := if req.bio.Some? then p1.(bio := req.bio) else p1;
    var p3 := if req.location.Some? then p2.(location := req.location) else p2;
    if req.website.Some? then p3.(website := req.website) else p3
  }

  function UpdateProfile(s: DbState, caller: Option<UserId>, req: ProfileUpdate): (r: Outcome<UserView>)
    ensures r.Err? <==> caller.None? || caller.value !in s.users
    ensures r.Err? ==> r.error == NotFound
    ensures r.Ok? ==>
      var me, t := caller.value, r.value.1;
      && t.users.Keys == s.users.Keys
      && t.users[me] == s.users[me].(profile := ApplyUpdate(s.users[me].profile, req))
      && t == s.(users := t.users)
      && (forall u :: u in s.users && u != me ==> t.users[u] == s.users[u])
      && r.value.0 == UserViewOf(t, me, caller)
  {
    match caller
    case None => Err(NotFound)
    case Some(me) =>
      if me !in s.users then Err(NotFound)
      else
        var t := s.(users := s.users[me := s.users[me].(profile := ApplyUpdate(s.users[me].profile, req))]);
        Ok((UserViewOf(t, me, caller), t))
  }

  // ---------------------------------------------------------------- listings

  /** The views of the followers of `id`, as seen by `viewer`. */
  function GetFollowers(s: DbState, viewer: Option<UserId>, id: UserId): (r: Result<set<UserView>>)
    ensures r.Err? <==> id !in s.users
    ensures r.Err? ==> r.error == NotFound
    ensures r.Ok? ==> (set v | v in r.value :: v.id) == s.users[id].followers * s.users.Keys
    ensures r.Ok? ==> forall v :: v in r.value ==> v.id in s.users && v == UserViewOf(s, v.id, viewer)
  {
    if id !in s.users then Err(NotFound)
    else
      var vs := set f | f in s.users[id].followers && f in s.users :: UserViewOf(s, f, viewer);
      assert (set v | v in vs :: v.id) == s.users[id].followers * s.users.Keys by {
        forall f | f in s.users[id].followers * s.users.Keys ensures f in (set v | v in vs :: v.id) {
          assert UserViewOf(s, f, viewer) in vs;
        }
      }
      Ok(vs)
  }

  /** The views of the users `id` follows, as seen by `viewer`. */
  function GetFollowing(s: DbState, viewer: Option<UserId>, id: UserId): (r: Result<set<UserView>>)
    ensures r.Err? <==> id !in s.users
    ensures r.Err? ==> r.error == NotFound
    ensures r.Ok? ==> (set v | v in r.value :: v.id) == s.users[id].following * s.users.Keys
    ensures r.Ok? ==> forall v :: v in r.value ==> v.id in s.users && v == UserViewOf(s, v.id, viewer)
  {
    if id !in s.users then Err(NotFound)
    else
      var vs := set f | f in s.users[id].following && f in s.users :: UserViewOf(s, f, viewer);
      assert (set v | v in vs :: v.id) == s.users[id].following * s.users.Keys by {
        forall f | f in s.users[id].following * s.users.Keys ensures f in (set v | v in vs :: v.id) {
          assert UserViewOf(s, f, viewer) in vs;
        }
      }
      Ok(vs)
  }

  // ---------------------------------------------------------------- properties

  /** Adding an edge between two different users keeps the graph well formed;
      in particular the two indexes still mirror each other. */
  lemma AddEdgeKeepsGraph(users: map<UserId, UserRow>, a: UserId, b: UserId)
    requires GraphOk(users) && a in users && b in users && a != b
    ensures GraphOk(AddEdge(users, a, b))
  {
    var r := AddEdge(users, a, b);
    forall x, y | x in r && y in r ensures y in r[x].following <==> x in r[y].followers {
      assert y in users[x].following <==> x in users[y].followers;
    }
  }

  lemma RemoveEdgeKeepsGraph(users: map<UserId, UserRow>, a: UserId, b: UserId)
    requires GraphOk(users) && a in users && b in users
    ensures GraphOk(RemoveEdge(users, a, b))
  {
    var r := RemoveEdge(users, a, b);
    forall x, y | x in r && y in r ensures y in r[x].following <==> x in r[y].followers {
      assert y in users[x].following <==> x in users[y].followers;
    }
  }

  /** Following and then unfollowing, from a state without that edge, gives
      back exactly the users table it started from. */
  lemma FollowThenUnfollowRestores(users: map<UserId, UserRow>, a: UserId, b: UserId)
    requires GraphOk(users) && a in users && b in users && a != b
    requires b !in users[a].following
    ensures RemoveEdge(AddEdge(users, a, b), a, b) == users
  {
    var r := RemoveEdge(AddEdge(users, a, b), a, b);
    assert a !in users[b].followers;
    forall u | u in users ensures r[u] == users[u] {
      assert r[u].following == users[u].following;
      assert r[u].followers == users[u].followers;
    }
  }

  /** The service-level round trip: a successful follow and the matching
      unfollow leave the follow graph as it was, and the only other trace is
      the FOLLOW notification. */
  lemma FollowUnfollowRoundTrip(s: DbState, me: UserId, target: UserId)
    requires Inv(s) && FollowUser(s, Some(me), target).Ok?
    ensures var t := FollowUser(s, Some(me), target).value.1;
      && UnfollowUser(t, Some(me), target).Ok?
      && UnfollowUser(t, Some(me), target).value.1.users == s.users
      && UnfollowUser(t, Some(me), target).value.1.posts == s.posts
      && |UnfollowUser(t, Some(me), target).value.1.notifications| == |s.notifications| + 1
  {
    var t := FollowUser(s, Some(me), target).value.1;
    FollowThenUnfollowRestores(s.users, me, target);
    NotificationModel.NotifyAddsOne(s.(users := t.users), t.notifications[s.nextNotificationId]);
  }

  /** A second follow of the same user is refused and changes nothing. */
  lemma FollowTwiceRefused(s: DbState, me: UserId, target: UserId)
    requires FollowUser(s, Some(me), target).Ok?
    ensures FollowUser(FollowUser(s, Some(me), target).value.1, Some(me), target) == Err(BadRequest)
  {
  }

  /** What `a` sees as "follows me" about `b` is what `b` sees as "I follow"
      about `a`: the two relationship flags agree because the indexes mirror. */
  lemma RelationshipFlagsAgree(s: DbState, a: UserId, b: UserId)
    requires GraphOk(s.users) && a in s.users && b in s.users && a != b
    ensures UserViewOf(s, b, Some(a)).isFollowing == UserViewOf(s, a, Some(b)).isFollowedBy
    ensures UserViewOf(s, b, Some(a)).isFollowing.value == (a in s.users[b].followers)
  {
  }

  /** Under the invariants, the follower listing holds exactly the followers,
      and as many views as the view's `followersCount`. */
  lemma GetFollowersExact(s: DbState, viewer: Option<UserId>, id: UserId)
    requires Inv(s) && id in s.users
    ensures (set v | v in GetFollowers(s, viewer, id).value :: v.id) == s.users[id].followers
    ensures (set v | v in GetFollowing(s, viewer, id).value :: v.id) == s.users[id].following
  {
    assert s.users[id].followers <= s.users.Keys && s.users[id].following <= s.users.Keys;
    assert s.users[id].followers * s.users.Keys == s.users[id].followers;
    assert s.users[id].following * s.users.Keys == s.users[id].following;
    assert GetFollowers(s, viewer, id).Ok? && GetFollowing(s, viewer, id).Ok?;
  }

  /** An empty request changes nothing, and applying a request twice is the
      same as applying it once. */
  lemma ApplyUpdateLaws(p: Profile, req: ProfileUpdate)
    ensures ApplyUpdate(p, ProfileUpdate(None, None, None, None)) == p
    ensures ApplyUpdate(ApplyUpdate(p, req), req) == ApplyUpdate(p, req)
  {
  }

  /** The state between the two steps of a follow, the edge added and the
      notification not yet saved, already satisfies the invariants. */
  lemma AddEdgeKeepsInv(s: DbState, a: UserId, b: UserId)
    requires Inv(s) && a in s.users && b in s.users && a != b
    ensures Inv(s.(users := AddEdge(s.users, a, b)))
  {
    AddEdgeKeepsGraph(s.users, a, b);
  }

  lemma RemoveEdgeKeepsInv(s: DbState, a: UserId, b: UserId)
    requires Inv(s) && a in s.users && b in s.users
    ensures Inv(s.(users := RemoveEdge(s.users, a, b)))
  {
    RemoveEdgeKeepsGraph(s.users, a, b);
  }

  lemma FollowUserPreserves(s: DbState, caller: Option<UserId>, target: UserId)
    requires Inv(s) && FollowUser(s, caller, target).Ok?
    ensures Inv(FollowUser(s, caller, target).value.1)
    ensures ReadStaysRead(s, FollowUser(s, caller, target).value.1)
  {
    var me := caller.value;
    var s1 := s.(users := AddEdge(s.users, me, target));
    AddEdgeKeepsInv(s, me, target);
    var t := FollowUser(s, caller, target).value.1;
    NotificationModel.NotifyPreserves(s1, t.notifications[s.nextNotificationId]);
  }

  lemma UnfollowUserPreserves(s: DbState, caller: Option<UserId>, target: UserId)
    requires Inv(s) && UnfollowUser(s, caller, target).Ok?
    ensures Inv(UnfollowUser(s, caller, target).value.1)
    ensures ReadStaysRead(s, UnfollowUser(s, caller, target).value.1)
  {
    RemoveEdgeKeepsInv(s, caller.value, target);
  }

  /** Profiles take no part in the invariants: replacing one keeps them. */
  lemma SetProfileKeepsInv(s: DbState, u: UserId, p: Profile)
    requires Inv(s) && u in s.users
    ensures Inv(s.(users := s.users[u := s.users[u].(profile := p)]))
  {
    var t := s.(users := s.users[u := s.users[u].(profile := p)]);
    assert forall a :: a in t.users ==> t.users[a].following == s.users[a].following;
    assert forall a :: a in t.users ==> t.users[a].followers == s.users[a].followers;
  }

  lemma UpdateProfilePreserves(s: DbState, caller: Option<UserId>, req: ProfileUpdate)
    requires Inv(s) && UpdateProfile(s, caller, req).Ok?
    ensures Inv(UpdateProfile(s, caller, req).value.1)
    ensures ReadStaysRead(s, UpdateProfile(s, caller, req).value.1)
  {
    SetProfileKeepsInv(s, caller.value, ApplyUpdate(s.users[caller.value].profile, req));
  }
}
