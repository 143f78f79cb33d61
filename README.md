# Xplore core in Dafny

Xplore is a Spring Boot social-media backend. It stores posts that form comment trees, follow relations between users, likes, user profiles and notifications. It also sends notification and one-time-password (OTP) emails. This project models its service layer, the repository queries the services depend on and the entity helpers that keep links consistent. The model states and proves what each operation does to the tables and what it returns.

The model is laid out as follows:

- **The store.** The relational store is one class, `Store.Database`. It holds one field per table: posts, users, profiles, follows, likes and notifications. It also holds the IDENTITY counters for posts and notifications. Its invariant, `Valid`, collects the integrity constraints the schema and entity helpers maintain:
  - the comment tree is consistent in both directions (parent pointer and `comments` list);
  - post ids increase from parent to child;
  - authors, followers, likers and recipients are stored users;
  - username, email and database id are unique;
  - a user and the profile it points to point back at each other;
  - no user follows themselves.
- **Service operations that write.** These are methods with `modifies` clauses on the tables they change. Each one's `ensures` states the new table contents in terms of the old ones and keeps `Valid`. A transaction that throws leaves every table unchanged.
- **Queries.** Repository queries are functions over the table contents. A query that returns rows in an order takes the table's scan order `rows` as a parameter. `ORDER BY … DESC` is a stable descending sort of that scan. Spring paging is `Seqs.Paginate`.
- **Errors.** Service exceptions are the `Failure` case of `Result`, one `ServiceError` per exception class and message. Java `null` is `Option.None`.
- **Outside inputs.** These are parameters:
  - the clock (milliseconds);
  - the UUIDs and database ids of new rows;
  - the random OTP draw;
  - the password encoder;
  - the image-upload outcome;
  - whether the mail API accepts a message.
- **Email.** Sent mail is recorded in `EmailService.Mailer.sent`. The OTP cache is `OtpService.OtpCache`, and destroyed images are recorded by `Cloudinary.MediaStore`.

## Model

| member | source | states |
|---|---|---|
| Entities.NewPost | src/main/java/com/SSarkar/Xplore/entity/Post.java:35-60 | a new post gets its uuid, author and content, type TEXT_IMAGE, share count 0, no images, comments or parent |
| Entities.NewNotification | src/main/java/com/SSarkar/Xplore/entity/Notification.java:69-74 | a new notification carries recipient, sender, type and related uuid and starts unread |
| Entities.PostEqualityIsUuid | src/main/java/com/SSarkar/Xplore/entity/Post.java:21 | in the keyed post table two rows are equal exactly when their uuids are |
| Store.Subtree | src/main/java/com/SSarkar/Xplore/entity/Post.java:78-80 | the posts a cascade from a root reaches are exactly the stored posts descending from it by parent pointers |
| Store.SubtreeClosedUnderComments | src/main/java/com/SSarkar/Xplore/entity/Post.java:78-80 | every comment of a post in the subtree is in the subtree |
| Store.SubtreeReachedByComments | src/main/java/com/SSarkar/Xplore/entity/Post.java:78-80 | every non-root post in the subtree is listed in its parent's comments, and that parent is in the subtree |
| Store.DeleteSubtree | src/main/java/com/SSarkar/Xplore/entity/Post.java:78-80 | the cascading delete removes exactly the subtree and drops the root from the remaining comment lists |
| Store.DeleteKeepsTree | src/main/java/com/SSarkar/Xplore/entity/Post.java:78-80 | the table left by the cascading delete is still a consistent comment tree |
| Store.AddCommentLinks | src/main/java/com/SSarkar/Xplore/entity/Post.java:84-87 | `addComment` changes only the comment lists and parent pointers |
| Store.AddCommentKeepsTree | src/main/java/com/SSarkar/Xplore/entity/Post.java:84-87 | adding a parentless comment appends it to the parent's list, points it at the parent and keeps the tree consistent |
| Store.AddCommentKeepsOldParentList | src/main/java/com/SSarkar/Xplore/entity/Post.java:84-87 | re-parenting a comment that already has a parent leaves it in the old parent's list and breaks the tree |
| Store.RemoveFirst | src/main/java/com/SSarkar/Xplore/entity/Post.java:90 | `List.remove` drops one occurrence: the multiset loses exactly that element |
| Store.RemoveCommentLinks | src/main/java/com/SSarkar/Xplore/entity/Post.java:89-92 | `removeComment` changes only the comment lists and parent pointers |
| Store.RemoveCommentKeepsTree | src/main/java/com/SSarkar/Xplore/entity/Post.java:89-92 | removing a listed comment unlists it, clears its parent and keeps the tree consistent |
| Store.ProfilesNotShared | src/main/java/com/SSarkar/Xplore/entity/User.java:59-68 | with the back references in place, two users never share a profile |
| Store.SetProfileLinks | src/main/java/com/SSarkar/Xplore/entity/User.java:59-68 | `setUserProfile` sets the user's profile and the new profile's user, or clears the old profile's user when given null |
| Store.SetProfileKeepsLinks | src/main/java/com/SSarkar/Xplore/entity/User.java:59-68 | linking a free profile, or the user's own one, keeps every user–profile pair pointing both ways |
| Store.ReplacingKeepsOldBackReference | src/main/java/com/SSarkar/Xplore/entity/User.java:64-67 | replacing a profile by another leaves the old profile still pointing at the user |
| Store.ClearingUnlinks | src/main/java/com/SSarkar/Xplore/entity/User.java:60-63 | setting null clears both ends of the link |
| Store.Database.AddComment | src/main/java/com/SSarkar/Xplore/entity/Post.java:84-87 | the post table becomes `AddCommentLinks` of the old one |
| Store.Database.RemoveComment | src/main/java/com/SSarkar/Xplore/entity/Post.java:89-92 | the post table becomes `RemoveCommentLinks` of the old one |
| Store.Database.SetUserProfile | src/main/java/com/SSarkar/Xplore/entity/User.java:59-68 | the user and profile tables become `SetProfileLinks` of the old ones |
| PostService.Render | src/main/java/com/SSarkar/Xplore/service/implementation/PostServiceImpl.java:152-179 | the DTO copies the post's fields and its author's name; commentCount is the number of direct comments; nested comments appear, in order, exactly when depth > 0 and there are any; nesting never exceeds depth |
| PostService.RenderAll | src/main/java/com/SSarkar/Xplore/service/implementation/PostServiceImpl.java:172-176 | one rendered DTO per comment, in the list's order, each at the reduced depth |
| PostService.MapPostToResponseDTO | src/main/java/com/SSarkar/Xplore/service/implementation/PostServiceImpl.java:153 | null maps to null; otherwise the DTO is for that post |
| PostService.DepthOneShowsDirectCommentsOnly | src/main/java/com/SSarkar/Xplore/service/implementation/PostServiceImpl.java:170-176 | at depth 1 the nested comments carry their own comment counts but no comments of their own |
| PostService.GetPostByUuid | src/main/java/com/SSarkar/Xplore/service/implementation/PostServiceImpl.java:125-129 | ResourceNotFound exactly when the uuid is not stored; otherwise the post rendered at depth 1 |
| PostService.InsertPostKeepsTree | src/main/java/com/SSarkar/Xplore/service/implementation/PostServiceImpl.java:57 | saving a new top-level post keeps the tree consistent |
| PostService.NewPostRow | src/main/java/com/SSarkar/Xplore/service/implementation/PostServiceImpl.java:44-50 | the new post has the request's images, or none when they are null, and otherwise the entity defaults |
| PostService.NewCommentRow | src/main/java/com/SSarkar/Xplore/service/implementation/PostServiceImpl.java:76-84 | the new comment takes the request's images only when they are non-null and non-empty |
| PostService.CreatePost | src/main/java/com/SSarkar/Xplore/service/implementation/PostServiceImpl.java:38-62 | unknown author: UsernameNotFound and nothing changes; otherwise exactly one new top-level row and its depth-0 DTO; keeps every table invariant |
| PostService.AddCommentToPost | src/main/java/com/SSarkar/Xplore/service/implementation/PostServiceImpl.java:66-95 | unknown user or parent: the matching error and nothing changes; otherwise the comment is stored, appended to the parent's list, pointed at the parent and rendered at depth 0 |
| PostService.SaveComment | src/main/java/com/SSarkar/Xplore/service/implementation/PostServiceImpl.java:86-90 | saving a comment through the parent links it both ways and advances the id counter |
| PostService.CommentRowKeepsTables | src/main/java/com/SSarkar/Xplore/service/implementation/PostServiceImpl.java:86-90 | the new comment keeps the tree, id order, authors, likes and key disjointness |
| PostService.GetAllPosts | src/main/java/com/SSarkar/Xplore/service/implementation/PostServiceImpl.java:99-121 | the page of posts in scan order, each rendered at depth 1, with the page's number, total pages, total items (the post count) and last flag |
| PostService.RenderPage | src/main/java/com/SSarkar/Xplore/service/implementation/PostServiceImpl.java:104-112 | the loop renders every post of the page at depth 1, in order |
| PostService.RowsCountKeys | src/main/java/com/SSarkar/Xplore/service/implementation/PostServiceImpl.java:118 | a full scan has as many rows as the table has keys |
| PostService.DeletePost | src/main/java/com/SSarkar/Xplore/service/implementation/PostServiceImpl.java:133-149 | unknown post: ResourceNotFound; not the author: AccessDenied with the source's message; both leave the tables unchanged; the author's delete removes the subtree and the likes on it |
| PostService.DeleteRemovesExactlySubtree | src/main/java/com/SSarkar/Xplore/service/implementation/PostServiceImpl.java:147 | a post survives the delete exactly when it does not descend from the deleted one; direct comments never survive |
| PostRepository.FeedOrder | src/main/java/com/SSarkar/Xplore/repository/PostRepository.java:67-83 | the feed holds exactly the top-level TEXT_IMAGE posts of the scan |
| PostRepository.FeedIsPermutation | src/main/java/com/SSarkar/Xplore/repository/PostRepository.java:67-83 | the ordered feed is a permutation of the filtered scan |
| PostRepository.FeedBucketRule | src/main/java/com/SSarkar/Xplore/repository/PostRepository.java:72-80 | every post by a followed author from the last day comes before every other post |
| PostRepository.FeedNewestFirstWithinBucket | src/main/java/com/SSarkar/Xplore/repository/PostRepository.java:81 | within one CASE bucket, posts are newest first |
| PostRepository.OwnPostsNotPromoted | src/main/java/com/SSarkar/Xplore/repository/PostRepository.java:55-66 | contrary to the comment's "own posts on top", the viewer's own posts come after every prioritised post |
| PostRepository.FindFeedPostUuidsForUser | src/main/java/com/SSarkar/Xplore/repository/PostRepository.java:67-83 | the page counts every feed candidate, holds only feed candidates, is exactly `Paginate` of `FeedOrder` (the requested run, its length and Spring's page metadata), and keeps its ranking: followed recent posts first, newest first within each bucket |
| PostRepository.FeedOrderRanked | src/main/java/com/SSarkar/Xplore/repository/PostRepository.java:72-81 | the whole feed order satisfies the bucket rule and newest-first within a bucket |
| PostRepository.FeedPageRanked | src/main/java/com/SSarkar/Xplore/repository/PostRepository.java:72-83 | any page cut from a ranked feed is ranked the same way |
| PostRepository.CountLikesForPosts | src/main/java/com/SSarkar/Xplore/repository/PostRepository.java:52-53 | one entry per requested stored post, valued at the number of likes on it |
| PostRepository.NewLikeCountsOnce | src/main/java/com/SSarkar/Xplore/repository/PostRepository.java:52-53 | a new like raises its post's count by one and no other count |
| PostRepository.FindByUuidIn | src/main/java/com/SSarkar/Xplore/repository/PostRepository.java:90-92 | exactly the stored posts whose uuid is listed |
| PostRepository.FindAllByParentPostIsNull | src/main/java/com/SSarkar/Xplore/repository/PostRepository.java:45-46 | exactly the top-level posts of the scan |
| PostRepository.GetPostsByAuthor | src/main/java/com/SSarkar/Xplore/repository/PostRepository.java:48-50 | exactly the author's posts of the scan |
| PostRepository.FindPostsByFollowing | src/main/java/com/SSarkar/Xplore/repository/PostRepository.java:94-100 | exactly the top-level posts whose author the viewer follows |
| PostRepository.FollowingPostsAreTopLevel | src/main/java/com/SSarkar/Xplore/repository/PostRepository.java:94-100 | those posts are top-level and never the viewer's own |
| PostRepository.FindAllByPostType | src/main/java/com/SSarkar/Xplore/repository/PostRepository.java:102-103 | exactly the posts of the scan with the given type |
| LikeRepository.FindByUserAndPost | src/main/java/com/SSarkar/Xplore/repository/LikeRepository.java:30 | found exactly when that user liked that post |
| LikeRepository.FindByUser | src/main/java/com/SSarkar/Xplore/repository/LikeRepository.java:40 | exactly the user's likes in the scan |
| LikeRepository.FindByUserComplete | src/main/java/com/SSarkar/Xplore/entity/Like.java:17-20 | over a full scan, every like of the user appears once |
| LikeRepository.FindLikedPostUuidsByUserAndPosts | src/main/java/com/SSarkar/Xplore/repository/LikeRepository.java:42-43 | a listed post is in the result exactly when the user liked it |
| FollowRepository.FindByFollowerAndFollowee | src/main/java/com/SSarkar/Xplore/repository/FollowRepository.java:40 | found exactly when that follow row exists |
| FollowRepository.UserWithId | src/main/java/com/SSarkar/Xplore/entity/User.java:19-23 | finds the only user with a given database id, if any |
| FollowRepository.FindByFollowerIdAndFolloweeId | src/main/java/com/SSarkar/Xplore/repository/FollowRepository.java:30 | a found row is stored and joins users with the two ids |
| FollowRepository.IdLookupAgrees | src/main/java/com/SSarkar/Xplore/repository/FollowRepository.java:30 | looking up by database ids agrees with looking up by the users |
| FollowRepository.FindByFollowee | src/main/java/com/SSarkar/Xplore/repository/FollowRepository.java:18 | exactly the follow rows into the user, in scan order |
| FollowRepository.FindByFollower | src/main/java/com/SSarkar/Xplore/repository/FollowRepository.java:19 | exactly the follow rows out of the user, in scan order |
| FollowRepository.FindByFolloweeComplete | src/main/java/com/SSarkar/Xplore/entity/Follow.java:15-17 | over a full scan, every follower appears, once |
| FollowRepository.FindFollowingUuidsByCurrentUserAndUsers | src/main/java/com/SSarkar/Xplore/repository/FollowRepository.java:42-43 | a listed user is in the result exactly when the current user follows them |
| FollowService.Toggled | src/main/java/com/SSarkar/Xplore/service/implementation/FollowServiceImpl.java:48-57 | follow-or-unfollow flips the one pair and leaves every other row |
| FollowService.ToggleTwice | src/main/java/com/SSarkar/Xplore/service/implementation/FollowServiceImpl.java:48-57 | toggling twice restores the table |
| FollowService.ToggleKeepsTable | src/main/java/com/SSarkar/Xplore/service/implementation/FollowServiceImpl.java:43-57 | toggling a pair of distinct stored users keeps the follow-table invariant |
| FollowService.UnfollowUser | src/main/java/com/SSarkar/Xplore/service/implementation/FollowServiceImpl.java:67-83 | same id: IllegalArgument; not following: IllegalState, both with the source's messages and nothing changed; otherwise the row is deleted |
| FollowService.FollowMessage | src/main/java/com/SSarkar/Xplore/service/implementation/FollowServiceImpl.java:53-62 | the unfollow and follow replies, with the followee's username |
| FollowService.FollowUser | src/main/java/com/SSarkar/Xplore/service/implementation/FollowServiceImpl.java:35-63 | corrected behaviour, see Findings: unknown user: ResourceNotFound; self: IllegalArgument; otherwise the row toggles, and only a new follow stores a NEW_FOLLOWER notification; when the followee allows email, the notification email built from that row is logged exactly when the address has text and the API accepts |
| FollowService.MapUserToResponse | src/main/java/com/SSarkar/Xplore/service/implementation/FollowServiceImpl.java:131-148 | the same DTO as the user service's, but without the email-notification flag |
| FollowService.GetFollowers | src/main/java/com/SSarkar/Xplore/service/implementation/FollowServiceImpl.java:87-105 | one DTO per follower row in order, with the viewer's follow flag; ResourceNotFound for an unknown user |
| FollowService.GetFollowing | src/main/java/com/SSarkar/Xplore/service/implementation/FollowServiceImpl.java:109-128 | one DTO per followed user in order, with the viewer's follow flag; ResourceNotFound for an unknown user |
| UserRepository.FindByUsername | src/main/java/com/SSarkar/Xplore/repository/UserRepository.java:24 | found exactly when a user has that username, and it is that user |
| UserRepository.FindByEmail | src/main/java/com/SSarkar/Xplore/repository/UserRepository.java:27 | found exactly when a user has that email, and it is that user |
| UserRepository.ExistsAgreesWithFind | src/main/java/com/SSarkar/Xplore/repository/UserRepository.java:31-33 | `existsBy…` is true exactly when `findBy…` finds a user |
| UserRepository.FindByUsernameOrEmail | src/main/java/com/SSarkar/Xplore/repository/UserRepository.java:43-44 | IncorrectResultSize exactly when one user's username and another's email both match; otherwise the matching user or none |
| UserRepository.LoadUserByUsername | src/main/java/com/SSarkar/Xplore/service/implementation/UserDetailsServiceImpl.java:26-34 | the login matches the found user's username or email; UsernameNotFound exactly when no user matches |
| UserRepository.AmbiguousLogin | src/main/java/com/SSarkar/Xplore/repository/UserRepository.java:43-44 | a login equal to one user's username and another's email makes the lookup fail |
| UserRepository.FindTopUsersNotFollowedBy | src/main/java/com/SSarkar/Xplore/repository/UserRepository.java:48-57 | exactly the other users the viewer does not follow, newest first |
| UserRepository.FindAllUsersExceptForCurrentUser | src/main/java/com/SSarkar/Xplore/repository/UserRepository.java:59-64 | exactly the other users, newest first |
| UserRepository.SuggestionsAreUnfollowedUsers | src/main/java/com/SSarkar/Xplore/repository/UserRepository.java:48-64 | the suggestions are the listed users minus those already followed |
| UserRepository.CountFollowers | src/main/java/com/SSarkar/Xplore/repository/UserRepository.java:67-68 | the number of follow rows into the user |
| UserRepository.CountFollowing | src/main/java/com/SSarkar/Xplore/repository/UserRepository.java:70-71 | the number of follow rows out of the user |
| UserRepository.CountPosts | src/main/java/com/SSarkar/Xplore/repository/UserRepository.java:73-74 | the number of posts the user authored |
| UserRepository.NewFollowCounts | src/main/java/com/SSarkar/Xplore/repository/UserRepository.java:67-71 | a new follow row adds one follower to the followee and one following to the follower |
| UserRepository.RemovedFollowCounts | src/main/java/com/SSarkar/Xplore/repository/UserRepository.java:67-71 | removing a follow row takes those counts back down by one |
| UserRepository.PostCountOfNewPost | src/main/java/com/SSarkar/Xplore/repository/UserRepository.java:73-74 | a new post raises only its author's post count, by one |
| UserService.IsFollowing | src/main/java/com/SSarkar/Xplore/service/implementation/UserServiceImpl.java:180-192 | true exactly when a viewer is logged in, is another user and follows the user |
| UserService.ViewerNeverFollowsSelf | src/main/java/com/SSarkar/Xplore/service/implementation/UserServiceImpl.java:187-188 | a user never shows as following themselves |
| UserService.MapUserToResponse | src/main/java/com/SSarkar/Xplore/service/implementation/UserServiceImpl.java:160-178 | the DTO copies the user's fields, the three counts from the tables, the follow flag and the profile fields (none without a profile) |
| UserService.GetUserDetailsByUsername | src/main/java/com/SSarkar/Xplore/service/implementation/UserServiceImpl.java:48-53 | ResourceNotFound exactly when no user has the name; otherwise that user's DTO with the viewer's follow flag |
| UserService.GetCurrentUserDetails | src/main/java/com/SSarkar/Xplore/service/implementation/UserServiceImpl.java:42-44 | exactly `getUserDetailsByUsername` for the viewer's own username: ResourceNotFound when it is not stored, otherwise the viewer's own DTO, never marked as followed |
| UserService.EditedProfile | src/main/java/com/SSarkar/Xplore/service/implementation/UserServiceImpl.java:75-97 | non-null full name and bio replace the old ones, a successful upload replaces the picture, and the rest is kept |
| UserService.EditedUsername | src/main/java/com/SSarkar/Xplore/service/implementation/UserServiceImpl.java:78-83 | a non-null username replaces the current one |
| UserService.ProfileOf | src/main/java/com/SSarkar/Xplore/service/implementation/UserServiceImpl.java:66-71 | the existing profile, or a new one when the user has none |
| UserService.ProfileEditKeepsUserTable | src/main/java/com/SSarkar/Xplore/service/implementation/UserServiceImpl.java:57-105 | a free username and an own or new profile keep the user-table invariant |
| UserService.RenameKeepsUnique | src/main/java/com/SSarkar/Xplore/service/implementation/UserServiceImpl.java:78-83 | renaming to an unused name keeps usernames unique |
| UserService.LinkKeepsProfilesLinked | src/main/java/com/SSarkar/Xplore/service/implementation/UserServiceImpl.java:66-71 | linking the user's own or a new profile keeps both directions of the link |
| UserService.EditUserRows | src/main/java/com/SSarkar/Xplore/service/implementation/UserServiceImpl.java:66-101 | a taken username gives IllegalArgument, a failed upload UploadFailed; otherwise the edited user and profile rows |
| UserService.UpdateUserProfile | src/main/java/com/SSarkar/Xplore/service/implementation/UserServiceImpl.java:57-105 | an unknown user gives UsernameNotFound, errors change nothing, success stores the edited rows and returns the new DTO |
| UserService.MapUsers | src/main/java/com/SSarkar/Xplore/service/implementation/UserServiceImpl.java:115-117 | one DTO per id, in order |
| UserService.UserPage | src/main/java/com/SSarkar/Xplore/service/implementation/UserServiceImpl.java:118-125 | the page's DTOs with its number, totals and last flag |
| UserService.GetSuggestedUsers | src/main/java/com/SSarkar/Xplore/service/implementation/UserServiceImpl.java:109-126 | UsernameNotFound exactly for an unknown viewer; otherwise the requested page of unfollowed users, flagged as not followed |
| UserService.SuggestionsAreNotFollowed | src/main/java/com/SSarkar/Xplore/service/implementation/UserServiceImpl.java:109-126 | every suggestion is another user whom the viewer does not follow, and its flag is right |
| UserService.GetAllUsers | src/main/java/com/SSarkar/Xplore/service/implementation/UserServiceImpl.java:130-148 | UsernameNotFound exactly for an unknown viewer; otherwise the requested page of other users with the follow flag |
| UserService.AllUsersMarkFollowRows | src/main/java/com/SSarkar/Xplore/service/implementation/UserServiceImpl.java:130-148 | every listed user is another user, flagged exactly when the viewer follows them |
| UserService.UpdateEmailNotificationSetting | src/main/java/com/SSarkar/Xplore/service/implementation/UserServiceImpl.java:152-158 | unknown viewer: UsernameNotFound and nothing changes; otherwise only the viewer's flag is set |
| AuthService.NewUserKeepsUserTable | src/main/java/com/SSarkar/Xplore/entity/User.java:19-23 | a user with a fresh uuid, id, username and email, and an optional fresh profile, keeps the user-table invariant |
| AuthService.RegisterUser | src/main/java/com/SSarkar/Xplore/service/implementation/AuthServiceImpl.java:37-85 | a taken username, then a taken email, fail with the source's messages and change nothing; otherwise one new user with the encoded password, and a profile exactly when the picture URL is valid |
| Registration.ValidRequestFields | src/main/java/com/SSarkar/Xplore/dto/auth/UserRegistrationRequestDTO.java:14-26 | a valid request has a 3–20 character username with text, an email with text and a password of at least 8 characters |
| Registration.ProfilePictureUrlValidIff | src/main/java/com/SSarkar/Xplore/dto/auth/UserRegistrationRequestDTO.java:30-33 | the URL is valid exactly when present with a character above U+0020 |
| Registration.BlankUrlsInvalid | src/main/java/com/SSarkar/Xplore/dto/auth/UserRegistrationRequestDTO.java:32 | an all-blank URL is not valid |
| NotificationRepository.FindByRecipientOrderByCreatedAtDesc | src/main/java/com/SSarkar/Xplore/repository/NotificationRepository.java:25 | exactly the recipient's notifications, newest first |
| NotificationRepository.MarkedAsRead | src/main/java/com/SSarkar/Xplore/repository/NotificationRepository.java:32-34 | a row becomes read when it belongs to the recipient and is listed; nothing else changes |
| NotificationRepository.MarkAsReadScoped | src/main/java/com/SSarkar/Xplore/repository/NotificationRepository.java:32-34 | rows of other recipients, or not listed, are untouched |
| NotificationRepository.MarkAsReadIdempotent | src/main/java/com/SSarkar/Xplore/repository/NotificationRepository.java:32-34 | marking twice is marking once |
| NotificationRepository.MarkAsReadCompose | src/main/java/com/SSarkar/Xplore/repository/NotificationRepository.java:32-34 | two updates equal one update of both id lists |
| NotificationRepository.MarkAsReadKeepsTable | src/main/java/com/SSarkar/Xplore/repository/NotificationRepository.java:32-34 | the update keeps the notification-table invariant |
| NotificationRepository.DeletedForRecipient | src/main/java/com/SSarkar/Xplore/service/implementation/NotificationServiceImpl.java:72 | exactly the other recipients' rows remain, unchanged |
| NotificationRepository.DeleteForRecipientEmpties | src/main/java/com/SSarkar/Xplore/service/implementation/NotificationServiceImpl.java:72 | afterwards the recipient has no notifications, and deleting again changes nothing |
| NotificationService.PostUrl | src/main/java/com/SSarkar/Xplore/service/implementation/NotificationServiceImpl.java:57 | the link starts with the site's post path |
| NotificationService.RelatedPost | src/main/java/com/SSarkar/Xplore/service/implementation/NotificationServiceImpl.java:54 | the related post when its uuid is stored, else null |
| NotificationService.SenderName | src/main/java/com/SSarkar/Xplore/service/implementation/NotificationServiceImpl.java:147 | the sender's username, or "Someone" |
| NotificationService.ActionPhrase | src/main/java/com/SSarkar/Xplore/service/implementation/NotificationServiceImpl.java:146-174 | follow, like and comment notifications have a non-blank action phrase; other types have none |
| NotificationService.MessageTable | src/main/java/com/SSarkar/Xplore/service/implementation/NotificationServiceImpl.java:146-174 | the message is "name phrase" for those types, the fixed published text for POST_CREATED and the generic text otherwise |
| NotificationService.LikeMessage | src/main/java/com/SSarkar/Xplore/service/implementation/NotificationServiceImpl.java:156-160 | a like message is the sender's name followed by the like phrase |
| NotificationService.CommentMessage | src/main/java/com/SSarkar/Xplore/service/implementation/NotificationServiceImpl.java:161-165 | a comment message is the sender's name followed by the comment phrase |
| NotificationService.CommentWordingIff | src/main/java/com/SSarkar/Xplore/service/implementation/NotificationServiceImpl.java:156-165 | like and comment messages say "your comment." exactly when the related post is a comment |
| NotificationService.PhraseWording | src/main/java/com/SSarkar/Xplore/service/implementation/NotificationServiceImpl.java:156-165 | the phrase alone says "your comment." exactly when the related post is a comment |
| NotificationService.EmailActionTextIsPhrase | src/main/java/com/SSarkar/Xplore/service/implementation/EmailServiceImpl.java:558-564 | for a sender name without spaces, the email's action text is the message without the name |
| NotificationService.FollowEmailHasNoPostLink | src/main/java/com/SSarkar/Xplore/service/implementation/EmailServiceImpl.java:125 | follow emails never show the "View Full Post" button |
| NotificationService.FollowInUsernameHidesPostLink | src/main/java/com/SSarkar/Xplore/service/implementation/EmailServiceImpl.java:125 | a like or comment email from a user whose name contains "follow" also loses the button |
| NotificationService.SenderPictureAsWritten | src/main/java/com/SSarkar/Xplore/service/implementation/NotificationServiceImpl.java:61 | the picture lookup fails with NullPointer exactly when the sender has no profile |
| NotificationService.SenderPicture | src/main/java/com/SSarkar/Xplore/service/implementation/NotificationServiceImpl.java:61 | the null-safe lookup: the profile's picture, or none without a profile |
| NotificationService.SenderPictureCorrected | src/main/java/com/SSarkar/Xplore/service/implementation/NotificationServiceImpl.java:61 | agrees with the written lookup wherever that succeeds, and yields the default avatar for a profileless sender |
| NotificationService.CreateNotificationOutcomeAsWritten | src/main/java/com/SSarkar/Xplore/service/implementation/NotificationServiceImpl.java:42-66 | as written, createNotification throws exactly when the users differ, the recipient wants email and the sender has no profile |
| NotificationService.ProfilelessSenderBreaksNotification | src/main/java/com/SSarkar/Xplore/service/implementation/NotificationServiceImpl.java:61 | a concrete pair of users for which the written code throws NullPointer |
| NotificationService.NotificationEmailRequest | src/main/java/com/SSarkar/Xplore/service/implementation/NotificationServiceImpl.java:53-61 | the email goes to the recipient with the fixed subject, the generated message, the sender's name and picture, the comment or post content, and the post link when the post exists |
| NotificationService.SubjectHasText | src/main/java/com/SSarkar/Xplore/service/implementation/NotificationServiceImpl.java:61 | the fixed subject always passes the mail guard |
| NotificationService.AddNotificationKeepsTable | src/main/java/com/SSarkar/Xplore/service/implementation/NotificationServiceImpl.java:49-50 | saving a notification for stored users keeps the table invariant |
| NotificationService.SendEmail | src/main/java/com/SSarkar/Xplore/service/implementation/EmailServiceImpl.java:66-93 | an email is logged only when the address has text and the API accepts, and it is exactly the email the builder makes from the request; nothing else is logged |
| NotificationService.CreateNotification | src/main/java/com/SSarkar/Xplore/service/implementation/NotificationServiceImpl.java:42-66 | corrected behaviour, see Findings: own action: nothing changes; otherwise one new unread row, and an email exactly when the recipient wants them, logged as the exact email built from the request |
| NotificationService.DeleteNotifications | src/main/java/com/SSarkar/Xplore/service/implementation/NotificationServiceImpl.java:70-74 | unknown user: ResourceNotFound and nothing changes; otherwise exactly the user's notifications are deleted |
| NotificationService.MapEntityToDto | src/main/java/com/SSarkar/Xplore/service/implementation/NotificationServiceImpl.java:127-144 | the DTO copies the notification, the sender's name and picture when present, and the generated message |
| NotificationService.UnreadIdsMembers | src/main/java/com/SSarkar/Xplore/service/implementation/NotificationServiceImpl.java:93-95 | exactly the listed ids whose rows are unread |
| NotificationService.PageDtos | src/main/java/com/SSarkar/Xplore/service/implementation/NotificationServiceImpl.java:91 | one DTO per id, in order |
| NotificationService.ReadPageEffect | src/main/java/com/SSarkar/Xplore/service/implementation/NotificationServiceImpl.java:99-102 | after reading a page every shown row is read and every other row is unchanged |
| NotificationService.MapStep | src/main/java/com/SSarkar/Xplore/service/implementation/NotificationServiceImpl.java:88-96 | one pass of the loop body appends the next notification's DTO, and its id exactly when it is unread |
| NotificationService.MapPage | src/main/java/com/SSarkar/Xplore/service/implementation/NotificationServiceImpl.java:88-96 | the loop produces the page's DTOs and its unread ids |
| NotificationService.RecipientPage | src/main/java/com/SSarkar/Xplore/service/implementation/NotificationServiceImpl.java:83 | the page holds only the recipient's notifications |
| NotificationService.PageResponse | src/main/java/com/SSarkar/Xplore/service/implementation/NotificationServiceImpl.java:104-110 | the response carries the DTOs with the page's number, totals and last flag |
| NotificationService.GetNotificationsForUser | src/main/java/com/SSarkar/Xplore/service/implementation/NotificationServiceImpl.java:79-111 | unknown user: ResourceNotFound; otherwise the page as it was before reading, and the shown rows are then marked read |
| EmailService.GetMsg | src/main/java/com/SSarkar/Xplore/service/implementation/EmailServiceImpl.java:558-564 | the result is empty or starts with a space |
| EmailService.GetMsgBlank | src/main/java/com/SSarkar/Xplore/service/implementation/EmailServiceImpl.java:559-561 | null or blank text gives "" |
| EmailService.GetMsgSingleToken | src/main/java/com/SSarkar/Xplore/service/implementation/EmailServiceImpl.java:562-563 | text without whitespace gives "" |
| EmailService.GetMsgTail | src/main/java/com/SSarkar/Xplore/service/implementation/EmailServiceImpl.java:562-563 | "word spaces rest" gives " rest" |
| EmailService.TextOrDefault | src/main/java/com/SSarkar/Xplore/service/implementation/EmailServiceImpl.java:99-101 | the value when it has text, else the default |
| EmailService.Truncate | src/main/java/com/SSarkar/Xplore/service/implementation/EmailServiceImpl.java:113-115 | content up to 150 characters is kept; longer content is its first 150 characters and "..." |
| EmailService.EscapeRoundTrip | src/main/java/com/SSarkar/Xplore/service/implementation/EmailServiceImpl.java:105 | unescaping the escaped text gives the text back |
| EmailService.EscapeLength | src/main/java/com/SSarkar/Xplore/service/implementation/EmailServiceImpl.java:105 | escaping adds one character per '%' |
| EmailService.EscapedPercentShowsDoubled | src/main/java/com/SSarkar/Xplore/service/implementation/EmailServiceImpl.java:118-121 | "100%" becomes "100%%" |
| EmailService.FollowWordHidesLink | src/main/java/com/SSarkar/Xplore/service/implementation/EmailServiceImpl.java:125 | any message containing "follow" hides the button |
| EmailService.BuildNotificationEmailContent | src/main/java/com/SSarkar/Xplore/service/implementation/EmailServiceImpl.java:95-135 | null message: NullPointer; otherwise the defaulted name and picture, the action text with every '%' doubled, margin and preview exactly when the post content has text, and the button exactly when the message lacks "follow" |
| EmailService.Mailer.SendOtpEmail | src/main/java/com/SSarkar/Xplore/service/implementation/EmailServiceImpl.java:36-62 | a blank address does nothing; an accepted send logs one OTP email; a refused one fails with MessagingFailure |
| EmailService.Mailer.SendNotificationEmail | src/main/java/com/SSarkar/Xplore/service/implementation/EmailServiceImpl.java:66-93 | a blank address or subject does nothing; a null message fails; an API failure is swallowed; an accepted send logs exactly one email, to that address with that subject and the arguments the builder prepares |
| OtpService.PaddedDigitsValue | src/main/java/com/SSarkar/Xplore/service/implementation/OtpServiceImpl.java:35 | zero-padding a number below 10^width yields digits denoting that number |
| OtpService.FormatOtp | src/main/java/com/SSarkar/Xplore/service/implementation/OtpServiceImpl.java:35 | the `000000` pattern gives six digits denoting the number |
| OtpService.Lookup | src/main/java/com/SSarkar/Xplore/service/implementation/OtpServiceImpl.java:22-31 | an entry is returned exactly while it is younger than five minutes |
| OtpService.OtpCache.GenerateAndStoreOtp | src/main/java/com/SSarkar/Xplore/service/implementation/OtpServiceImpl.java:34-38 | a six-digit otp denoting the draw (at most 999998) is stored with the request under the email |
| OtpService.OtpCache.GetOtp | src/main/java/com/SSarkar/Xplore/service/implementation/OtpServiceImpl.java:41-48 | the live entry's otp, or null |
| OtpService.OtpCache.GetRegistrationRequest | src/main/java/com/SSarkar/Xplore/service/implementation/OtpServiceImpl.java:51-58 | the live entry's request, or null |
| OtpService.OtpCache.ClearOtp | src/main/java/com/SSarkar/Xplore/service/implementation/OtpServiceImpl.java:61-63 | the email's entry is removed |
| OtpService.StoredReadsBack | src/main/java/com/SSarkar/Xplore/service/implementation/OtpServiceImpl.java:24 | a stored entry reads back until five minutes after it was written, then never |
| OtpService.SecondStoreOverwrites | src/main/java/com/SSarkar/Xplore/service/implementation/OtpServiceImpl.java:36 | a second store for the same email replaces the first |
| OtpService.ClearedIsAbsent | src/main/java/com/SSarkar/Xplore/service/implementation/OtpServiceImpl.java:62 | after clearing, nothing is returned |
| OtpService.OtherEmailsUnaffected | src/main/java/com/SSarkar/Xplore/service/implementation/OtpServiceImpl.java:34-63 | storing or clearing one email leaves every other email's lookup unchanged |
| OtpService.ExpiryIsPermanent | src/main/java/com/SSarkar/Xplore/service/implementation/OtpServiceImpl.java:24 | an expired entry stays expired |
| Jwt.JwtFromHeader | src/main/java/com/SSarkar/Xplore/security/jwt/JwtUtils.java:37-47 | a token exactly when the header has text and starts with "Bearer ", and the header is the prefix plus the token |
| Jwt.HeaderRoundTrip | src/main/java/com/SSarkar/Xplore/security/jwt/JwtUtils.java:39-41 | the token put behind "Bearer " is extracted unchanged |
| Jwt.NoTokenWithoutText | src/main/java/com/SSarkar/Xplore/security/jwt/JwtUtils.java:39 | a null or blank header gives no token |
| Jwt.PrefixIsExact | src/main/java/com/SSarkar/Xplore/security/jwt/JwtUtils.java:39 | a lower-case or unspaced prefix gives no token |
| Jwt.LongAdd | src/main/java/com/SSarkar/Xplore/security/jwt/JwtUtils.java:56 | Java long addition: exact when in range, wrapped by 2^64 otherwise |
| Jwt.ExpiryAfterIssue | src/main/java/com/SSarkar/Xplore/security/jwt/JwtUtils.java:55-56 | with a positive lifetime, the expiry is later than the issue time exactly when the sum does not overflow |
| Cloudinary.PublicIdBetween | src/main/java/com/SSarkar/Xplore/service/implementation/CloudinaryServiceImpl.java:59 | the public id is the text between the last '/' and the last '.', and the substring fails exactly when the '.' is not after the '/' |
| Cloudinary.PublicIdWithoutSlash | src/main/java/com/SSarkar/Xplore/service/implementation/CloudinaryServiceImpl.java:59 | without a '/', the id is everything before the last '.' |
| Cloudinary.PublicIdOfFileName | src/main/java/com/SSarkar/Xplore/service/implementation/CloudinaryServiceImpl.java:59 | "dir/name.ext" gives "name" |
| Cloudinary.DefaultAvatarPublicId | src/main/java/com/SSarkar/Xplore/service/implementation/EmailServiceImpl.java:25 | the default avatar URL's public id |
| Cloudinary.MediaStore.Delete | src/main/java/com/SSarkar/Xplore/service/implementation/CloudinaryServiceImpl.java:58-61 | a URL with a public id destroys that id when the API call succeeds; no public id gives IndexOutOfBounds, a failed call gives IOException, and then nothing is destroyed |

## Left out

- The HTTP layer, security filters, login (`loginUser`), JWT signing and validation: they are framework code. `@Valid` on the registration endpoint is kept as `RegisterUser`'s precondition.
- The `@Email` format check on registration: the address grammar is not modelled. Only `@NotBlank` and `@Size` are.
- Transactions are all-or-nothing: an operation that fails leaves the tables it may change unchanged. Lazy loading, `@Async` and concurrency are not modelled.
- The database scan order, the clock, the random OTP draw, new UUIDs and ids, `passwordEncoder.encode`, Cloudinary uploads and the Brevo mail API are parameters. Mail the API accepts is appended to `Mailer.sent`.
- UUIDs are natural numbers. `PostUrl` therefore appends the number's decimal digits rather than the 36-character UUID text.
- The feed query compares `f.follower` with the `UserDetails` object Spring passes in. The model compares it with the viewer's own uuid. `CURRENT_TIMESTAMP - 1 DAY` is `now` minus 86 400 000 ms.
- The documentation comment on the feed query promises the viewer's own posts on top, but the query does not rank them. The model follows the query (`PostRepository.OwnPostsNotPromoted`).
- `commentCount` counts direct comments only, as `mapPostToResponseDTO` does. There is no recursive count, depth cache or admission permit in the code.
- `createPost` calls `author.addPost`. `User.posts` is not part of this model, and a post's author is the user row it names. The followers, following and posts collections are derived from the follow and post tables.
- PostService.AddCommentToPost: the response is rendered from the stored comment row, with createdAt and updatedAt set to the save time. In the source, `postRepository.save(parentPost)` merges the parent, and the cascade persists a managed copy of the new comment. `mapPostToResponseDTO(comment, 0)` then reads the original transient object, whose `@CreationTimestamp` and `@UpdateTimestamp` fields were never filled, so the real response most likely carries null timestamps. This follows from JPA merge semantics. Every other field agrees.
- Post editing, like toggling and share counting: their service code is not part of this model.
- `getUnreadNotificationCount`: it is outside the modelled core.
- The HTML email templates and `Year.now()`: only the format arguments are modelled.
- Registration.IsValidRequest, Registration.SizeBetween and EmailService.Truncate count characters as Unicode scalar values, whereas Java's `length()`, `@Size` and `substring` count UTF-16 code units. They differ on text outside the Basic Multilingual Plane: "😀😀" is 4 units long in Java but 2 characters in the model, and `substring(0, 150)` can split a surrogate pair where `Truncate` keeps whole characters. JavaText.Trim and Cloudinary.PublicId are unaffected, because they cut only at characters of the Basic Multilingual Plane.
- UserRepository.FindTopUsersNotFollowedBy and UserService.GetSuggestedUsers: the repository declares `List<User>` (UserRepository.java:57), but the service assigns the result to `Page<User>` (UserServiceImpl.java:113). The two files disagree. The model follows the service: a page with its metadata.
- JavaText.ToLowerAscii: lowercases ASCII letters only. Other letters cannot form or break the ASCII word "follow".
- The OTP cache's Guava internals (size bound, eviction) are left out. Only expiry after write is modelled.

## Findings

| source | as written | input that shows it | evidently intended | confidence | as-written member | corrected member |
|---|---|---|---|---|---|---|
| src/main/java/com/SSarkar/Xplore/service/implementation/NotificationServiceImpl.java:61 | `sender.getUserProfile().getProfilePictureUrl()` is called without a null check. The resulting NullPointerException escapes `catch (MessagingException)` and rolls back the notification and the follow that triggered it (the only caller is `followUser`, FollowServiceImpl.java:60). | A user registered with a blank picture URL has no profile. That user follows a user who has email notifications on. | A sender without a profile gets the default avatar, and the notification is saved. | not executed | NotificationService.CreateNotificationOutcomeAsWritten | NotificationService.SenderPictureCorrected |
