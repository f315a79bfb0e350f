/** The `Post` entity and its engagement counters, updated in place by its
    helper methods. */
module PostEntity {
  import opened Common
  import opened State

  class Post {
    const id: PostId
    const author: UserId
    var content: string
    var likesCount: int
    var commentsCount: int
    var sharesCount: int
    const createdAt: Time

    /** The counters are never negative. */
    predicate Valid()
      reads this
    {
      likesCount >= 0 && commentsCount >= 0 && sharesCount >= 0
    }

    /** A new post: every counter starts at zero. */
    constructor (id: PostId, author: UserId, content: string, createdAt: Time)
      ensures Valid()
      ensures Row() == PostRow(id, author, content, 0, 0, 0, createdAt)
    {
      this.id := id;
      this.author := author;
      this.content := content;
      likesCount := 0;
      commentsCount := 0;
      sharesCount := 0;
      this.createdAt := createdAt;
    }

    /** The row this object is persisted as. */
    function Row(): PostRow
      reads this
    {
      PostRow(id, author, content, likesCount, commentsCount, sharesCount, createdAt)
    }

    method IncrementLikesCount()
      requires Valid()
      modifies this
      ensures Valid()
      ensures Row() == old(Row()).(likesCount := old(likesCount) + 1)
    {
      likesCount := likesCount + 1;
    }

    method DecrementLikesCount()
      requires Valid()
      modifies this
      ensures Valid()
      ensures Row() == old(Row()).(likesCount := Decremented(old(likesCount)))
      ensures old(likesCount) == 0 ==> likesCount == 0
      ensures old(likesCount) > 0 ==> likesCount == old(likesCount) - 1
    {
      if likesCount > 0 {
        likesCount := likesCount - 1;
      }
    }

    method IncrementCommentsCount()
      requires Valid()
      modifies this
      ensures Valid()
      ensures Row() == old(Row()).(commentsCount := old(commentsCount) + 1)
    {
      commentsCount := commentsCount + 1;
    }

    method DecrementCommentsCount()
      requires Valid()
      modifies this
      ensures Valid()
      ensures Row() == old(Row()).(commentsCount := Decremented(old(commentsCount)))
      ensures old(commentsCount) == 0 ==> commentsCount == 0
      ensures old(commentsCount) > 0 ==> commentsCount == old(commentsCount) - 1
    {
      if commentsCount > 0 {
        commentsCount := commentsCount - 1;
      }
    }

    method IncrementSharesCount()
      requires Valid()
      modifies this
      ensures Valid()
      ensures Row() == old(Row()).(sharesCount := old(sharesCount) + 1)
    {
      sharesCount := sharesCount + 1;
    }
  }
}
