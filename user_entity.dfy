/** The `User` entity: profile columns and the two sides of the follow relation,
    updated in place by its helper methods. */
module UserEntity {
  import opened Common
  import opened State

  class User {
    const id: UserId
    var profile: Profile
    /** Users this user follows. */
    var following: set<UserId>
    /** Users who follow this user. */
    var followers: set<UserId>

    constructor (id: UserId, profile: Profile)
      ensures this.id == id && this.profile == profile
      ensures following == {} && followers == {}
    {
      this.id := id;
      this.profile := profile;
      following := {};
      followers := {};
    }

    /** The row this object is persisted as. */
    function Row(): UserRow
      reads this
    {
      UserRow(profile, following, followers)
    }

    /** Adds `user` to this user's followees and this user to `user`'s followers.
        Membership is by id, so an edge already present is not duplicated. */
    method Follow(user: User)
      modifies this, user
      ensures following == old(following) + {user.id}
      ensures user.followers == old(user.followers) + {id}
      ensures |following| == |old(following)| + (if user.id in old(following) then 0 else 1)
      ensures IsFollowing(user)
      ensures user != this ==> followers == old(followers) && user.following == old(user.following)
      ensures profile == old(profile) && user.profile == old(user.profile)
    {
      if user.id !in following {
        assert |following + {user.id}| == |following| + 1;
      }
      following := following + {user.id};
      user.followers := user.followers + {id};
    }

    /** Removes the edge from this user to `user` from both sides. */
    method Unfollow(user: User)
      modifies this, user
      ensures following == old(following) - {user.id}
      ensures user.followers == old(user.followers) - {id}
      ensures !IsFollowing(user)
      ensures user != this ==> followers == old(followers) && user.following == old(user.following)
      ensures profile == old(profile) && user.profile == old(user.profile)
    {
      following := following - {user.id};
      user.followers := user.followers - {id};
    }

    /** Whether this user follows `user`, answered from the following set this
        user is persisted with; two users with the same id are the same user. */
    predicate IsFollowing(user: User)
      reads this
      ensures IsFollowing(user) <==> user.id in Row().following
    {
      user.id in following
    }
  }
}
