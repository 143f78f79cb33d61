/**
 * The JPA entities as values: Post, User, UserProfile, Follow, Like and
 * Notification. Object references become keys: a post's author, parent and
 * comments are uuids, a user's profile is a profile reference. Instants are
 * integers (milliseconds).
 */
module Entities {
  import opened Wrappers

  /** A `java.util.UUID`; the model only needs equality. */
  type Uuid = nat
  /** The identity of a UserProfile object. */
  type ProfileRef = nat

  datatype PostType = TEXT_IMAGE | VIDEO_SHORT

  datatype Post = Post(
    uuid: Uuid,
    id: nat,                    // the IDENTITY primary key: later rows get larger ids
    content: string,
    imageUrls: seq<string>,
    videoUrl: Option<string>,
    postType: PostType,
    createdAt: int,
    updatedAt: int,
    shareCount: nat,
    author: Uuid,
    parent: Option<Uuid>,       // parentPost
    comments: seq<Uuid>)        // the `comments` list, in list order

  /**
   * `new Post()` with its field initialisers, once saved: a fresh uuid,
   * no images, type TEXT_IMAGE, share count 0, no parent and no comments;
   * both timestamps are the save time.
   */
  function NewPost(uuid: Uuid, id: nat, author: Uuid, content: string, now: int): (p: Post)
    ensures p.uuid == uuid && p.id == id && p.author == author && p.content == content
    ensures p.postType == TEXT_IMAGE && p.shareCount == 0
    ensures p.imageUrls == [] && p.comments == [] && p.parent.None? && p.videoUrl.None?
    ensures p.createdAt == now && p.updatedAt == now
  {
    Post(uuid, id, content, [], None, TEXT_IMAGE, now, now, 0, author, None, [])
  }

  datatype User = User(
    id: nat,                          // the IDENTITY primary key
    uuid: Uuid,
    username: string,
    email: string,
    password: string,
    createdAt: int,
    updatedAt: int,
    profile: Option<ProfileRef>,      // userProfile
    emailNotificationsEnabled: bool)

  datatype Profile = Profile(
    user: Option<Uuid>,               // the owning side of the one-to-one link
    bio: Option<string>,
    profilePictureUrl: Option<string>,
    fullName: Option<string>)

  /** `new UserProfile()`: every field null. */
  const EmptyProfile: Profile := Profile(None, None, None, None)

  /** A follow row, identified by its (follower, followee) pair: the table's unique constraint. */
  datatype Follow = Follow(follower: Uuid, followee: Uuid)

  /** A like row, identified by its (user, post) pair: the table's unique constraint. */
  datatype Like = Like(user: Uuid, post: Uuid)

  datatype NotificationType =
    | NEW_FOLLOWER
    | POST_LIKE
    | POST_COMMENT
    | POST_CREATED
    | OtherType(name: string)         // any further constant of the enum

  datatype Notification = Notification(
    id: nat,
    uuid: Uuid,
    recipient: Uuid,
    sender: Option<Uuid>,
    notificationType: NotificationType,
    isRead: bool,
    relatedEntityUuid: Option<Uuid>,
    createdAt: int)

  /** `new Notification(recipient, sender, type, related)`, once saved: unread. */
  function NewNotification(id: nat, uuid: Uuid, recipient: Uuid, sender: Option<Uuid>, t: NotificationType,
                           related: Option<Uuid>, now: int): (n: Notification)
    ensures n.id == id && n.recipient == recipient && n.sender == sender && n.notificationType == t
    ensures n.relatedEntityUuid == related && !n.isRead && n.createdAt == now
  {
    Notification(id, uuid, recipient, sender, t, false, related, now)
  }

  /** Posts are stored under their uuid: a table whose keys are its rows' uuids. */
  ghost predicate PostsKeyed(posts: map<Uuid, Post>) {
    forall u :: u in posts ==> posts[u].uuid == u
  }

  /** Post equality is uuid equality: in a keyed table two rows with the same uuid are the same row. */
  lemma PostEqualityIsUuid(posts: map<Uuid, Post>, a: Uuid, b: Uuid)
    requires PostsKeyed(posts) && a in posts && b in posts
    ensures posts[a].uuid == posts[b].uuid <==> a == b
  {
  }

  ghost predicate UsersKeyed(users: map<Uuid, User>) {
    forall u :: u in users ==> users[u].uuid == u
  }

  /** The user table's primary key and its unique constraints on username and email (uuid is the map key). */
  ghost predicate UniqueUserColumns(users: map<Uuid, User>) {
    && (forall a, b :: a in users && b in users && users[a].id == users[b].id ==> a == b)
    && (forall a, b :: a in users && b in users && users[a].username == users[b].username ==> a == b)
    && (forall a, b :: a in users && b in users && users[a].email == users[b].email ==> a == b)
  }

  /**
   * The lookup by a unique column (`findById`, `findByUsername`, `findByEmail`):
   * the one stored user whose `column` holds `v`, if any.
   */
  function FindUnique<K(==)>(users: map<Uuid, User>, column: User -> K, v: K): (r: Option<Uuid>)
    requires forall a, b :: a in users && b in users && column(users[a]) == column(users[b]) ==> a == b
    ensures r.Some? <==> exists u :: u in users && column(users[u]) == v
    ensures r.Some? ==> r.value in users && column(users[r.value]) == v
  {
    if exists u | u in users :: column(users[u]) == v then
      var u :| u in users && column(users[u]) == v;
      Some(u)
    else None
  }
}
