# Social state of the RedSocial backend, in Dafny

This project models the social-state logic of the RedSocial Spring backend. It covers four parts:

- **The follow graph.** `User.follow`, `unfollow` and `isFollowing`, and the follow and unfollow services.
- **The engagement counters.** The `Post` counter helpers, liking and unliking, and comment creation and deletion.
- **The notification store.** Creating notifications, the unread count, marking as read and deleting.
- **The post queries.** The feed, trending, author and all-posts listings of the posts repository.

The model has three layers.

- **Entities.** `UserEntity.User` and `PostEntity.Post` are classes. Their methods update fields in place, as the Java helpers do.
- **Specifications.** `UserModel`, `PostModel`, `CommentModel` and `NotificationModel` state each service operation as a function over the committed database state (`State.DbState`). Each function returns the value handed back and the state committed, or one of the two failures the services raise. `NotFound` stands for `ResourceNotFoundException`, which is also raised when nobody is authenticated. `BadRequest` stands for `BadRequestException`. `PostRepository` states the repository queries as functions over the posts table, scanned in identity order.
- **Services.** `UserService`, `PostService`, `CommentService` and `NotificationService` are imperative methods on `Persistence.Database`. Users and posts are objects in that database, and the other tables are rows. Each service method:
  - requires and keeps `Database.Valid()`, which includes the invariants `State.Inv`;
  - is proved to commit exactly what its specification function describes (`State.Realizes`).

The invariants `State.Inv` say:

- `b` is in `a.following` exactly when `a` is in `b.followers`;
- every edge joins existing users, and nobody follows themself;
- every post's `likesCount` equals the number of users who like it;
- the other counters are never negative;
- every comment's post, author and parent exist;
- every notification's recipient exists.

Every operation is proved to keep them. Every operation is also proved never to set a read notification back to unread (`State.ReadStaysRead`).

The caller is a parameter (`Option<UserId>`); `None` means nobody is authenticated. Timestamps are integers in seconds. Whether live WebSocket delivery succeeds is a parameter, `delivered`. It decides only what reaches `Database.outbox`, never the stored notification.

Three behaviours of the code are worth stating plainly:

- **Errors.** The services raise only the two failure kinds above.
- **Deleting a comment.** Deleting a comment removes its whole reply thread but lowers the post's `commentsCount` once, floored at zero (service/CommentService.java:141-148). It is not lowered once per removed comment. `CommentModel.DeleteCountsOnce` shows that the counter then over-counts.
- **Reply depth.** A reply may answer a reply. The code checks only that the parent belongs to the same post (service/CommentService.java:44-53), so threads of any depth are modelled. The cascade follows the whole chain of parents. That cascade rests on the comment at service/CommentService.java:143; the `Comment` entity's mapping (Comment.java) is not part of this model.

## Model

| member | source | states |
|---|---|---|
| UserEntity.User.constructor | src/main/java/com/backend/sh/entity/User.java:94-100 | a new user follows nobody and has no followers |
| UserEntity.User.Follow | src/main/java/com/backend/sh/entity/User.java:107-110 | `user` joins this user's followees and this user joins `user`'s followers. An existing edge is not duplicated: the size grows by one exactly when the edge was new. Profiles are untouched. |
| UserEntity.User.Unfollow | src/main/java/com/backend/sh/entity/User.java:112-115 | the edge leaves both sets and nothing else changes; afterwards `IsFollowing(user)` is false (after `Follow` it is true) |
| UserEntity.User.IsFollowing | src/main/java/com/backend/sh/entity/User.java:117-119 | true exactly when `user`'s identity is in the following set this user is persisted with |
| PostEntity.Post.constructor | src/main/java/com/backend/sh/entity/Post.java:42-52 | a new post starts with all three counters at zero |
| PostEntity.Post.IncrementLikesCount | src/main/java/com/backend/sh/entity/Post.java:72-74 | `likesCount` rises by exactly one; the rest of the row is unchanged and the counters stay non-negative |
| PostEntity.Post.DecrementLikesCount | src/main/java/com/backend/sh/entity/Post.java:76-80 | `likesCount` drops by one when positive and stays at zero otherwise; nothing else changes |
| PostEntity.Post.IncrementCommentsCount | src/main/java/com/backend/sh/entity/Post.java:82-84 | `commentsCount` rises by exactly one; nothing else changes |
| PostEntity.Post.DecrementCommentsCount | src/main/java/com/backend/sh/entity/Post.java:86-90 | `commentsCount` drops by one when positive and stays at zero otherwise |
| PostEntity.Post.IncrementSharesCount | src/main/java/com/backend/sh/entity/Post.java:92-94 | only `sharesCount` changes, rising by one |
| PostRepository.Sort | src/main/java/com/backend/sh/repository/PostRepository.java:25-33 | the result is ordered by the requested ORDER BY and is a permutation of its input |
| PostRepository.Page | src/main/java/com/backend/sh/repository/PostRepository.java:28 | page `page` of size `size` is the slice starting at `page*size`, at most `size` long, and empty past the end |
| PostRepository.FromAuthors | src/main/java/com/backend/sh/repository/PostRepository.java:25-26 | exactly the posts whose author is in the given set |
| PostRepository.CreatedSince | src/main/java/com/backend/sh/repository/PostRepository.java:31 | exactly the posts created at or after `since` |
| PostRepository.FindAllByOrderByCreatedAtDesc | src/main/java/com/backend/sh/repository/PostRepository.java:19 | a page of stored posts, newest first, holding exactly as many rows as the table has for that page: `size` rows, or the remainder on the last page, or none past the end |
| PostRepository.FindByAuthorIdOrderByCreatedAtDesc | src/main/java/com/backend/sh/repository/PostRepository.java:22 | a page holding only that author's posts, newest first, as full as that author's post count allows |
| PostRepository.FindFeedPosts | src/main/java/com/backend/sh/repository/PostRepository.java:25-28 | every feed post is by a user the viewer follows; the page is newest first and as full as the number of followed posts allows; the feed is empty when the viewer follows nobody |
| PostRepository.FindTrendingPosts | src/main/java/com/backend/sh/repository/PostRepository.java:31-33 | every post is created at or after `since`; ordered by likes descending, ties by creation time descending; the page is as full as the number of recent posts allows |
| PostRepository.FeedCoversFollowees | src/main/java/com/backend/sh/repository/PostRepository.java:25-28 | every post by a followed user is on some page of the feed, provided no two followed posts share a creation time |
| PostRepository.AllCoversPosts | src/main/java/com/backend/sh/repository/PostRepository.java:19 | every stored post is on some page of the newest-first listing, provided no two posts share a creation time |
| PostRepository.AuthorCoversPosts | src/main/java/com/backend/sh/repository/PostRepository.java:22 | every post of the author is on some page of that author's listing, provided no two of them share a creation time |
| PostRepository.TrendingIsTopRanked | src/main/java/com/backend/sh/repository/PostRepository.java:31-33 | a recent post left out of the top `limit` ranks behind every post that was taken |
| PostRepository.TrendingHoldsAllWhenFew | src/main/java/com/backend/sh/repository/PostRepository.java:31-33 | when at most `limit` posts are recent, every one of them is returned |
| PostRepository.CountByAuthorIdCountsPosts | src/main/java/com/backend/sh/repository/PostRepository.java:36 | the count equals the number of stored posts by that author |
| PostModel.PostViewOf | src/main/java/com/backend/sh/service/PostService.java:240-269 | the view copies the row; `isLiked` is present exactly when there is a viewer, and then says whether the viewer likes the post |
| PostModel.CreatePost | src/main/java/com/backend/sh/service/PostService.java:34-52 | an unknown caller gets NotFound. Otherwise one post is stored under the next identity, authored by the caller with all counters at zero, and nothing else changes. |
| PostModel.UpdatePost | src/main/java/com/backend/sh/service/PostService.java:149-166 | NotFound for a missing post and BadRequest for a non-author, with no change; otherwise only `content` changes |
| PostModel.DeletePost | src/main/java/com/backend/sh/service/PostService.java:168-181 | the same checks; otherwise the post, its likes and its comments go, and nothing else changes |
| PostModel.LikePost | src/main/java/com/backend/sh/service/PostService.java:183-216 | NotFound for a missing post or user, and BadRequest for a repeated like, with no change. The like succeeds exactly when none of these applies; then it is added and `likesCount` rises by one. One LIKE notification goes to the author exactly when the author is not the liker. |
| PostModel.UnlikePost | src/main/java/com/backend/sh/service/PostService.java:218-238 | NotFound for a missing post and BadRequest without a like; the unlike succeeds exactly when the like exists, and then the like goes, the counter drops (floored) and no notification changes |
| PostModel.GetPostById | src/main/java/com/backend/sh/service/PostService.java:54-67 | NotFound exactly for a missing post; otherwise its view |
| PostModel.GetAllPosts | src/main/java/com/backend/sh/service/PostService.java:69-83 | a page of views, newest first, as full as the table allows. Under the table invariant each view is the view of the stored post under its identity. `isLiked` is present exactly when there is a viewer. |
| PostModel.GetPostsByUserId | src/main/java/com/backend/sh/service/PostService.java:85-103 | NotFound exactly for an unknown user. Otherwise a page of that user's posts, newest first, as full as the user's number of stored posts allows. Under the table invariant each view is that of a stored post. |
| PostModel.GetFeedPosts | src/main/java/com/backend/sh/service/PostService.java:105-113 | only posts by followed users, newest first, as full as their number allows, with the caller's `isLiked`. Under the table invariant each view is that of a stored post. Empty when the caller follows nobody. |
| PostModel.GetTrendingPosts | src/main/java/com/backend/sh/service/PostService.java:115-132 | the `limit` most liked posts from the last 24 hours, or all of them when fewer, most liked first; under the table invariant each view is that of a stored post |
| PostModel.FeedShowsFollowedPosts | src/main/java/com/backend/sh/service/PostService.java:105-113 | every post of a followed user appears, as the caller's view, on some feed page, provided no two followed posts share a creation time |
| PostModel.AllPostsShown | src/main/java/com/backend/sh/service/PostService.java:69-83 | every stored post appears on some page of all posts, provided no two posts share a creation time |
| PostModel.AuthorPostsShown | src/main/java/com/backend/sh/service/PostService.java:85-103 | every post of a known author appears on some page of that author's posts, provided no two of them share a creation time |
| PostModel.TrendingShowsTopRanked | src/main/java/com/backend/sh/service/PostService.java:115-132 | a recent post left off the trending list has no more likes than any listed post, and is no newer than any listed post with as many likes |
| PostModel.TrendingShowsAllWhenFew | src/main/java/com/backend/sh/service/PostService.java:115-132 | when at most `limit` posts are recent, every one of them is on the trending list |
| PostModel.CreatePostFresh | src/main/java/com/backend/sh/service/PostService.java:40-47 | the new identity was unused, and the new post has no likers and is not liked by its author |
| PostModel.LikeTwiceNetsOne | src/main/java/com/backend/sh/service/PostService.java:194-208 | a second like is refused, so two likes in a row raise the counter by exactly one |
| PostModel.LikeThenUnlikeRestores | src/main/java/com/backend/sh/service/PostService.java:183-238 | like then unlike gives back the posts table and the like set exactly |
| PostModel.AddLikeKeepsInv | src/main/java/com/backend/sh/service/PostService.java:199-208 | saving the like and raising the counter together keep `likesCount` equal to the number of likers |
| PostModel.CreatePostPreserves | src/main/java/com/backend/sh/service/PostService.java:34-52 | creating a post keeps the invariants and read flags |
| PostModel.UpdatePostPreserves | src/main/java/com/backend/sh/service/PostService.java:149-166 | editing a post keeps the invariants and read flags |
| PostModel.DeletePostPreserves | src/main/java/com/backend/sh/service/PostService.java:168-181 | deleting a post keeps the invariants and read flags |
| PostModel.LikePostPreserves | src/main/java/com/backend/sh/service/PostService.java:183-216 | liking keeps the invariants (likes counted exactly) and the view says liked |
| PostModel.UnlikePostPreserves | src/main/java/com/backend/sh/service/PostService.java:218-238 | unliking keeps the invariants; the counter drops by exactly one because the like existed; the view says not liked |
| PostService.CreatePost | src/main/java/com/backend/sh/service/PostService.java:34-52 | builds a new `Post` object under the next identity and commits `PostModel.CreatePost` |
| PostService.SetContent | src/main/java/com/backend/sh/service/PostService.java:161-162 | writing the content on the post object commits the edit and keeps the context valid |
| PostService.UpdatePost | src/main/java/com/backend/sh/service/PostService.java:149-166 | commits `PostModel.UpdatePost`, errors included |
| PostService.DropPost | src/main/java/com/backend/sh/service/PostService.java:178-180 | removes the post and cascades to its like and comment rows |
| PostService.DeletePost | src/main/java/com/backend/sh/service/PostService.java:168-181 | commits `PostModel.DeletePost`, errors included |
| PostService.RecordLike | src/main/java/com/backend/sh/service/PostService.java:199-208 | saving the like and `incrementLikesCount` on the object keep the context valid |
| PostService.LikePost | src/main/java/com/backend/sh/service/PostService.java:183-216 | commits `PostModel.LikePost`, notification included |
| PostService.RemoveLike | src/main/java/com/backend/sh/service/PostService.java:228-234 | deleting the like and `decrementLikesCount` commit the unlike |
| PostService.UnlikePost | src/main/java/com/backend/sh/service/PostService.java:218-238 | commits `PostModel.UnlikePost`, errors included |
| UserModel.UserViewOf | src/main/java/com/backend/sh/service/UserService.java:236-265 | the counts are the sizes of the follower and followee sets and the number of the user's posts. The relationship flags are present exactly for a known viewer other than the user, and then say who follows whom. |
| UserModel.AddEdge | src/main/java/com/backend/sh/entity/User.java:107-110 | the followee joins the follower's `following` and the follower joins the followee's `followers` |
| UserModel.RemoveEdge | src/main/java/com/backend/sh/entity/User.java:112-115 | the edge leaves both sides |
| UserModel.FollowUser | src/main/java/com/backend/sh/service/UserService.java:149-174 | BadRequest for self, NotFound for a missing user, BadRequest for an existing edge, with no change. The follow succeeds exactly when none of these applies; then the edge is added and exactly one FOLLOW notification goes to the target |
| UserModel.UnfollowUser | src/main/java/com/backend/sh/service/UserService.java:176-198 | BadRequest for self or a missing edge, NotFound for a missing user; the unfollow succeeds exactly when the edge exists between two distinct known users, and then the edge is removed and no notification is made |
| UserModel.ApplyUpdate | src/main/java/com/backend/sh/service/UserService.java:90-102 | each field the request carries is copied; every other profile field is unchanged |
| UserModel.UpdateProfile | src/main/java/com/backend/sh/service/UserService.java:84-107 | NotFound for an unknown caller; otherwise only the caller's profile changes, as `ApplyUpdate` says |
| UserModel.GetFollowers | src/main/java/com/backend/sh/service/UserService.java:200-216 | NotFound for an unknown user; otherwise the views of exactly that user's stored followers |
| UserModel.GetFollowing | src/main/java/com/backend/sh/service/UserService.java:218-234 | NotFound for an unknown user; otherwise the views of exactly that user's stored followees |
| UserModel.AddEdgeKeepsGraph | src/main/java/com/backend/sh/entity/User.java:107-110 | following keeps the two indexes mirrored |
| UserModel.RemoveEdgeKeepsGraph | src/main/java/com/backend/sh/entity/User.java:112-115 | unfollowing keeps the two indexes mirrored |
| UserModel.FollowThenUnfollowRestores | src/main/java/com/backend/sh/entity/User.java:107-115 | follow then unfollow, from a state without the edge, restores both sets exactly |
| UserModel.FollowUnfollowRoundTrip | src/main/java/com/backend/sh/service/UserService.java:149-198 | a successful follow can be undone by unfollow; the graph and posts come back, and one notification remains |
| UserModel.FollowTwiceRefused | src/main/java/com/backend/sh/service/UserService.java:163-165 | a second follow of the same user is refused with BadRequest |
| UserModel.RelationshipFlagsAgree | src/main/java/com/backend/sh/service/UserService.java:256-261 | what one user sees as `isFollowing` the other sees as `isFollowedBy` |
| UserModel.GetFollowersExact | src/main/java/com/backend/sh/service/UserService.java:200-234 | under the invariants the listings hold exactly the followers and the followees |
| UserModel.ApplyUpdateLaws | src/main/java/com/backend/sh/service/UserService.java:90-102 | an empty request changes nothing, and applying a request twice equals applying it once |
| UserModel.AddEdgeKeepsInv | src/main/java/com/backend/sh/service/UserService.java:167 | the state with the edge added and no notification yet satisfies the invariants |
| UserModel.RemoveEdgeKeepsInv | src/main/java/com/backend/sh/service/UserService.java:194 | removing an edge keeps the invariants |
| UserModel.FollowUserPreserves | src/main/java/com/backend/sh/service/UserService.java:149-174 | following keeps the invariants and read flags |
| UserModel.UnfollowUserPreserves | src/main/java/com/backend/sh/service/UserService.java:176-198 | unfollowing keeps the invariants and read flags |
| UserModel.SetProfileKeepsInv | src/main/java/com/backend/sh/service/UserService.java:90-104 | replacing a profile keeps the invariants |
| UserModel.UpdateProfilePreserves | src/main/java/com/backend/sh/service/UserService.java:84-107 | a profile update keeps the invariants and read flags |
| UserService.AddFollow | src/main/java/com/backend/sh/service/UserService.java:167-168 | `follow` on the two user objects adds the edge and keeps the context valid |
| UserService.RemoveFollow | src/main/java/com/backend/sh/service/UserService.java:194-195 | `unfollow` on the two user objects removes the edge and keeps the context valid |
| UserService.FollowUser | src/main/java/com/backend/sh/service/UserService.java:149-174 | commits `UserModel.FollowUser`, errors and notification included |
| UserService.UnfollowUser | src/main/java/com/backend/sh/service/UserService.java:176-198 | commits `UserModel.UnfollowUser`, errors included |
| UserService.SetProfile | src/main/java/com/backend/sh/service/UserService.java:104 | storing a profile on the user object changes only that user's profile |
| UserService.UpdateProfile | src/main/java/com/backend/sh/service/UserService.java:84-107 | the four null checks on the object commit `UserModel.UpdateProfile` |
| NotificationModel.CreateLikeNotification | src/main/java/com/backend/sh/service/NotificationService.java:102-117 | one unread LIKE record from the sender to the post's author, about that post, with its message; nothing else changes |
| NotificationModel.CreateCommentNotification | src/main/java/com/backend/sh/service/NotificationService.java:119-134 | one unread COMMENT record to the post's author |
| NotificationModel.CreateReplyNotification | src/main/java/com/backend/sh/service/NotificationService.java:136-152 | one unread REPLY record to the parent comment's author, referring to its post and to the parent |
| NotificationModel.CreateFollowNotification | src/main/java/com/backend/sh/service/NotificationService.java:154-168 | one unread FOLLOW record to the followed user, with no post |
| NotificationModel.GetUnreadCount | src/main/java/com/backend/sh/service/NotificationService.java:39-43 | the number of the caller's unread notifications |
| NotificationModel.MarkAsRead | src/main/java/com/backend/sh/service/NotificationService.java:45-62 | NotFound for an unknown id and BadRequest for another user's record, with no change; otherwise that record alone becomes read, and the returned view is that of the updated record |
| NotificationModel.AllRead | src/main/java/com/backend/sh/service/NotificationService.java:72-75 | the marked table keeps exactly the identities it was given; what happens to each row is stated by `NotificationModel.MarkAllAsRead` |
| NotificationModel.MarkAllAsRead | src/main/java/com/backend/sh/service/NotificationService.java:64-76 | every notification of the caller becomes read and every other one is unchanged |
| NotificationModel.DeleteNotification | src/main/java/com/backend/sh/service/NotificationService.java:78-92 | the same checks as marking; otherwise exactly that record is removed |
| NotificationModel.DeleteAllNotifications | src/main/java/com/backend/sh/service/NotificationService.java:94-98 | exactly the caller's notifications are removed |
| NotificationModel.NotifyAddsOne | src/main/java/com/backend/sh/service/NotificationService.java:113 | saving a notification adds exactly one record under a fresh identity |
| NotificationModel.NotifyCountsUnread | src/main/java/com/backend/sh/service/NotificationService.java:104-113 | a new unread record raises its recipient's unread count by one and no one else's |
| NotificationModel.NotifyPreserves | src/main/java/com/backend/sh/service/NotificationService.java:113 | saving keeps the invariants and read flags |
| NotificationModel.MarkAsReadClearsOne | src/main/java/com/backend/sh/service/NotificationService.java:58 | the caller's unread set loses exactly that id; others' are unchanged |
| NotificationModel.MarkAsReadIdempotent | src/main/java/com/backend/sh/service/NotificationService.java:58 | marking the same record twice gives the same state as once |
| NotificationModel.MarkAllAsReadClears | src/main/java/com/backend/sh/service/NotificationService.java:72-75 | afterwards the caller's unread count is zero and others' are unchanged |
| NotificationModel.DeleteNotificationRemovesOne | src/main/java/com/backend/sh/service/NotificationService.java:91 | exactly one record fewer, and that id is gone |
| NotificationModel.DeleteAllRemovesMine | src/main/java/com/backend/sh/service/NotificationService.java:97 | the caller has no notification left and everyone else keeps theirs |
| NotificationModel.MarkAsReadPreserves | src/main/java/com/backend/sh/service/NotificationService.java:45-62 | keeps the invariants and read flags |
| NotificationModel.MarkAllAsReadPreserves | src/main/java/com/backend/sh/service/NotificationService.java:64-76 | keeps the invariants and read flags |
| NotificationModel.DeleteNotificationPreserves | src/main/java/com/backend/sh/service/NotificationService.java:78-92 | keeps the invariants and read flags |
| NotificationModel.DeleteAllNotificationsPreserves | src/main/java/com/backend/sh/service/NotificationService.java:94-98 | keeps the invariants and read flags |
| NotificationService.SendWebSocketNotification | src/main/java/com/backend/sh/service/NotificationService.java:170-182 | a delivered notification is appended to the outbox for its recipient; a failed delivery changes nothing |
| NotificationService.Save | src/main/java/com/backend/sh/service/NotificationService.java:113-116 | the stored state is the same whether delivery succeeds or not |
| NotificationService.CreateLikeNotification | src/main/java/com/backend/sh/service/NotificationService.java:102-117 | commits `NotificationModel.CreateLikeNotification` |
| NotificationService.CreateCommentNotification | src/main/java/com/backend/sh/service/NotificationService.java:119-134 | commits `NotificationModel.CreateCommentNotification` |
| NotificationService.CreateReplyNotification | src/main/java/com/backend/sh/service/NotificationService.java:136-152 | commits `NotificationModel.CreateReplyNotification` |
| NotificationService.CreateFollowNotification | src/main/java/com/backend/sh/service/NotificationService.java:154-168 | commits `NotificationModel.CreateFollowNotification` |
| NotificationService.MarkAsRead | src/main/java/com/backend/sh/service/NotificationService.java:45-62 | commits `NotificationModel.MarkAsRead`, errors included |
| NotificationService.MarkEachRead | src/main/java/com/backend/sh/service/NotificationService.java:72-75 | the loop over the user's records computes `NotificationModel.AllRead` |
| NotificationService.MarkAllAsRead | src/main/java/com/backend/sh/service/NotificationService.java:64-76 | commits `NotificationModel.MarkAllAsRead` |
| NotificationService.DeleteNotification | src/main/java/com/backend/sh/service/NotificationService.java:78-92 | commits `NotificationModel.DeleteNotification`, errors included |
| NotificationService.DeleteAllNotifications | src/main/java/com/backend/sh/service/NotificationService.java:94-98 | commits `NotificationModel.DeleteAllNotifications` |
| CommentModel.CommentViewOf | src/main/java/com/backend/sh/service/CommentService.java:151-175 | the view copies the row; `repliesCount` is the number of comments whose parent is this one |
| CommentModel.CreateComment | src/main/java/com/backend/sh/service/CommentService.java:33-83 | NotFound for a missing user, post or parent, and BadRequest for a parent on another post. The comment succeeds exactly when none of these applies; then one comment with no likes is added and `commentsCount` rises by one. A reply notifies the parent's author; a top-level comment notifies the post's author. Either notification is sent only when that author is not the caller, and a reply never notifies the post's author. |
| CommentModel.UpdateComment | src/main/java/com/backend/sh/service/CommentService.java:111-127 | NotFound or BadRequest for a non-author, with no change; otherwise only `content` changes |
| CommentModel.DeleteComment | src/main/java/com/backend/sh/service/CommentService.java:129-149 | the same checks; otherwise the comment and every reply beneath it go, and `commentsCount` drops once, floored at zero |
| CommentModel.ThreadClosed | src/main/java/com/backend/sh/service/CommentService.java:143-144 | a stored reply to a comment of the thread is in the thread |
| CommentModel.DeleteRemovesReplies | src/main/java/com/backend/sh/service/CommentService.java:143-144 | no direct reply of the deleted comment survives |
| CommentModel.DeleteCountsOnce | src/main/java/com/backend/sh/service/CommentService.java:143-148 | with one reply, at least two comments go but the counter drops by at most one |
| CommentModel.ReplyRaisesRepliesCount | src/main/java/com/backend/sh/service/CommentService.java:169 | a reply raises its parent's `repliesCount` by one |
| CommentModel.AddCommentKeepsInv | src/main/java/com/backend/sh/service/CommentService.java:55-67 | saving a comment with a valid parent and raising the counter keep the invariants |
| CommentModel.CreateCommentPreserves | src/main/java/com/backend/sh/service/CommentService.java:33-83 | creating a comment keeps the invariants and read flags |
| CommentModel.UpdateCommentPreserves | src/main/java/com/backend/sh/service/CommentService.java:111-127 | editing a comment keeps the invariants and read flags |
| CommentModel.DeleteCommentPreserves | src/main/java/com/backend/sh/service/CommentService.java:129-149 | deleting a thread leaves no reply without its parent and keeps the invariants |
| CommentService.RaiseCommentsCount | src/main/java/com/backend/sh/service/CommentService.java:66-67 | `incrementCommentsCount` on the object changes only that post's row |
| CommentService.LowerCommentsCount | src/main/java/com/backend/sh/service/CommentService.java:147-148 | `decrementCommentsCount` on the object changes only that post's row |
| CommentService.RecordComment | src/main/java/com/backend/sh/service/CommentService.java:55-67 | the comment row is saved under the next identity and the counter is raised |
| CommentService.SaveComment | src/main/java/com/backend/sh/service/CommentService.java:55-67 | the same on a valid context, which stays valid |
| CommentService.CreateComment | src/main/java/com/backend/sh/service/CommentService.java:33-83 | commits `CommentModel.CreateComment`, errors and notification choice included |
| CommentService.UpdateComment | src/main/java/com/backend/sh/service/CommentService.java:111-127 | commits `CommentModel.UpdateComment`, errors included |
| CommentService.DropThread | src/main/java/com/backend/sh/service/CommentService.java:141-148 | removes the comment's thread and lowers the counter once |
| CommentService.DeleteComment | src/main/java/com/backend/sh/service/CommentService.java:129-149 | commits `CommentModel.DeleteComment`, errors included |

## Left out

- Controllers, configuration (CORS, Swagger) and DTO classes beyond the fields the views above carry: routing and wrapping only.
- `AuthService`, registration and `UserService.changePassword`: password hashing, the authentication manager and JWT issuance are foreign library calls.
- `CurrentUser`: the ambient security context becomes the `caller` parameter.
- `searchPosts` and `searchUsers`: case-insensitive `LIKE` matching depends on the database collation.
- `getUserById`, `getUserByUsername` and `getAllUsers`: plain lookups whose view is `UserModel.UserViewOf`.
- `updateProfileImage` and `updateCoverImage`: single-field setters of image URLs.
- Post image URLs, `updatedAt` columns, `verified` and `active` flags, and the author summary inside post, comment and notification views: presentation fields not involved in any property.
- `getNotifications`, `getCommentsByPostId` and `getRepliesByCommentId`: listings ordered by creation time, which is not kept for notifications and comments.
- NotificationService.MarkAllAsRead: the source loads the caller's notifications as one page of `Integer.MAX_VALUE` rows ordered by creation time. The model marks every notification of the caller by scanning identities instead, which assumes a caller never has more than `Integer.MAX_VALUE` notifications.
- PostService.DeletePost: notifications that refer to the deleted post are kept as they are; the behaviour of the database's foreign keys for them is not modelled.
- PostEntity.Post.IncrementLikesCount: does not model the wrap-around of the 32-bit `Integer` counter, because the counters are unbounded integers here. The same holds for IncrementCommentsCount and IncrementSharesCount.
- PostModel.GetAllPosts: requires `size >= 1`, because `PageRequest.of` rejects smaller sizes before the query runs. A negative page, which `PageRequest.of` also rejects, cannot be passed, since pages are natural numbers here. The same holds for GetPostsByUserId, GetFeedPosts and GetTrendingPosts.
- PostRepository.FeedCoversFollowees: each `ORDER BY` is modelled by one fixed sort that keeps posts with equal sort keys in identity order. SQL does not promise that order, and it need not agree between the queries for two pages. So this lemma, AllCoversPosts, AuthorCoversPosts, PostModel.AllPostsShown, PostModel.AuthorPostsShown and PostModel.FeedShowsFollowedPosts assume that the posts involved have distinct creation times. Without that, a post tied on a page boundary may appear on no page.
- CommentModel.DeleteComment: REPLY notifications whose `comment` is a removed comment are kept as they are (service/NotificationService.java:144 links them through a plain join column, entity/Notification.java:43-45). What the database does with them is not modelled. The same holds for CommentService.DeleteComment.
- Concurrency: each operation is one transaction run alone; races between a like check and its insert are not modelled.
- The clock: `createdAt` and the trending cut-off are integer seconds passed in as `now`.
- WebSocket delivery: success or failure is the `delivered` parameter, and delivered messages are recorded in `Database.outbox`.
