/**
 * UserRepository: lookups by the unique columns, the login lookup that
 * matches either column, the two user listings ordered newest first, and
 * the follower, following and post counts.
 */
module UserRepository {
  import opened Wrappers
  import opened Seqs
  import opened Entities

  /** `findByUsername`. */
  function FindByUsername(users: map<Uuid, User>, username: string): (r: Option<Uuid>)
    requires UniqueUserColumns(users)
    ensures r.Some? <==> exists u :: u in users && users[u].username == username
    ensures r.Some? ==> r.value in users && users[r.value].username == username
  {
    FindUnique(users, (x: User) => x.username, username)
  }

  /** `findByEmail`. */
  function FindByEmail(users: map<Uuid, User>, email: string): (r: Option<Uuid>)
    requires UniqueUserColumns(users)
    ensures r.Some? <==> exists u :: u in users && users[u].email == email
    ensures r.Some? ==> r.value in users && users[r.value].email == email
  {
    FindUnique(users, (x: User) => x.email, email)
  }

  /** `existsByUsername`. */
  predicate ExistsByUsername(users: map<Uuid, User>, username: string) {
    exists u | u in users :: users[u].username == username
  }

  /** `existsByEmail`. */
  predicate ExistsByEmail(users: map<Uuid, User>, email: string) {
    exists u | u in users :: users[u].email == email
  }

  /** The existence checks agree with the lookups: true exactly when the lookup finds a user. */
  lemma ExistsAgreesWithFind(users: map<Uuid, User>, value: string)
    requires UniqueUserColumns(users)
    ensures ExistsByUsername(users, value) <==> FindByUsername(users, value).Some?
    ensures ExistsByEmail(users, value) <==> FindByEmail(users, value).Some?
  {
  }

  /**
   * `findByUsernameOrEmail(login)`: `WHERE u.username = :login OR u.email = :login`
   * into an `Optional`. Two different matching users (one by username, one
   * by email) make the single-result query fail.
   */
  function FindByUsernameOrEmail(users: map<Uuid, User>, login: string): (r: Result<Option<Uuid>, ServiceError>)
    requires UniqueUserColumns(users)
    ensures r.Failure? <==> exists a, b :: a in users && b in users && a != b &&
                                         users[a].username == login && users[b].email == login
    ensures r.Failure? ==> r.error == IncorrectResultSize
    ensures r.Success? && r.value.Some? ==>
              r.value.value in users && (users[r.value.value].username == login || users[r.value.value].email == login)
    ensures r.Success? ==>
              (r.value.None? <==> forall u :: u in users ==> users[u].username != login && users[u].email != login)
  {
    var byName := FindByUsername(users, login);
    var byEmail := FindByEmail(users, login);
    if byName.Some? && byEmail.Some? && byName.value != byEmail.value then Failure(IncorrectResultSize)
    else if byName.Some? then Success(byName)
    else Success(byEmail)
  }

  /**
   * `UserDetailsServiceImpl.loadUserByUsername(login)`: the matching user,
   * or UsernameNotFoundException when nobody matches.
   */
  function LoadUserByUsername(users: map<Uuid, User>, login: string): (r: Result<Uuid, ServiceError>)
    requires UniqueUserColumns(users)
    ensures r.Success? ==> r.value in users && (users[r.value].username == login || users[r.value].email == login)
    ensures r == Failure(UsernameNotFound) <==>
              forall u :: u in users ==> users[u].username != login && users[u].email != login
  {
    match FindByUsernameOrEmail(users, login)
    case Failure(e) => Failure(e)
    case Success(found) => if found.Some? then Success(found.value) else Failure(UsernameNotFound)
  }

  /** A login that is one user's username and another user's e-mail address matches two rows. */
  lemma AmbiguousLogin()
    ensures var users := map[1 := User(1, 1, "a@b.c", "x@y.z", "secret", 0, 0, None, true),
                             2 := User(2, 2, "bob", "a@b.c", "secret", 0, 0, None, true)];
            UniqueUserColumns(users) && FindByUsernameOrEmail(users, "a@b.c") == Failure(IncorrectResultSize)
  {
    var users := map[1 := User(1, 1, "a@b.c", "x@y.z", "secret", 0, 0, None, true),
                     2 := User(2, 2, "bob", "a@b.c", "secret", 0, 0, None, true)];
    assert users[1].username == "a@b.c" && users[2].email == "a@b.c";
  }

  /** The sort key `u.createdAt`. */
  function UserCreatedAtKey(users: map<Uuid, User>): (key: Uuid -> int)
    ensures forall u :: u in users ==> key(u) == users[u].createdAt
  {
    FieldKey(users, (x: User) => x.createdAt)
  }

  /**
   * `findTopUsersNotFollowedBy(me, pageable)` before paging: everyone but
   * `me` and the users `me` follows, newest account first.
   */
  function FindTopUsersNotFollowedBy(users: map<Uuid, User>, follows: set<Follow>, me: Uuid, rows: seq<Uuid>)
    : (r: seq<Uuid>)
    ensures forall u :: u in r <==> u in rows && u in users && u != me && Follow(me, u) !in follows
    ensures SortedDesc(r, UserCreatedAtKey(users))
  {
    var candidates := Filter(rows, u => u in users && u != me && Follow(me, u) !in follows);
    FilterMembers(rows, u => u in users && u != me && Follow(me, u) !in follows);
    SortDescMembers(candidates, UserCreatedAtKey(users));
    SortDescSorted(candidates, UserCreatedAtKey(users));
    SortDesc(candidates, UserCreatedAtKey(users))
  }

  /** `findAllUsersExceptForCurrentUser(me, pageable)` before paging: everyone but `me`, newest first. */
  function FindAllUsersExceptForCurrentUser(users: map<Uuid, User>, me: Uuid, rows: seq<Uuid>): (r: seq<Uuid>)
    ensures forall u :: u in r <==> u in rows && u in users && u != me
    ensures SortedDesc(r, UserCreatedAtKey(users))
  {
    var candidates := Filter(rows, u => u in users && u != me);
    FilterMembers(rows, u => u in users && u != me);
    SortDescMembers(candidates, UserCreatedAtKey(users));
    SortDescSorted(candidates, UserCreatedAtKey(users));
    SortDesc(candidates, UserCreatedAtKey(users))
  }

  /** The suggestions are the full listing minus the users `me` follows. */
  lemma SuggestionsAreUnfollowedUsers(users: map<Uuid, User>, follows: set<Follow>, me: Uuid, rows: seq<Uuid>)
    ensures forall u :: u in FindTopUsersNotFollowedBy(users, follows, me, rows) <==>
              u in FindAllUsersExceptForCurrentUser(users, me, rows) && Follow(me, u) !in follows
  {
  }

  /** The follow rows whose followee is `user`. */
  function FollowersOf(follows: set<Follow>, user: Uuid): (s: set<Follow>)
    ensures forall f :: f in s <==> f in follows && f.followee == user
  {
    set f | f in follows && f.followee == user
  }

  /** The follow rows whose follower is `user`. */
  function FollowingOf(follows: set<Follow>, user: Uuid): (s: set<Follow>)
    ensures forall f :: f in s <==> f in follows && f.follower == user
  {
    set f | f in follows && f.follower == user
  }

  /** `countFollowers(user)`: `COUNT(f) WHERE f.followee = :user`. */
  function CountFollowers(follows: set<Follow>, user: Uuid): (n: nat)
    ensures n == |FollowersOf(follows, user)|
  {
    |FollowersOf(follows, user)|
  }

  /** `countFollowing(user)`: `COUNT(f) WHERE f.follower = :user`. */
  function CountFollowing(follows: set<Follow>, user: Uuid): (n: nat)
    ensures n == |FollowingOf(follows, user)|
  {
    |FollowingOf(follows, user)|
  }

  /** The posts `user` wrote, comments included. */
  function PostsBy(posts: map<Uuid, Post>, user: Uuid): (s: set<Uuid>)
    ensures forall u :: u in s <==> u in posts && posts[u].author == user
  {
    set u | u in posts.Keys && posts[u].author == user
  }

  /** `countPosts(user)`: `COUNT(p) WHERE p.author = :user`, no parent condition. */
  function CountPosts(posts: map<Uuid, Post>, user: Uuid): (n: nat)
    ensures n == |PostsBy(posts, user)|
  {
    |PostsBy(posts, user)|
  }

  /** A new follow adds one to the followee's follower count and one to the follower's following count. */
  lemma NewFollowCounts(follows: set<Follow>, f: Follow)
    requires f !in follows
    ensures CountFollowers(follows + {f}, f.followee) == CountFollowers(follows, f.followee) + 1
    ensures CountFollowing(follows + {f}, f.follower) == CountFollowing(follows, f.follower) + 1
  {
    assert FollowersOf(follows + {f}, f.followee) == FollowersOf(follows, f.followee) + {f};
    assert FollowingOf(follows + {f}, f.follower) == FollowingOf(follows, f.follower) + {f};
  }

  /** Removing a follow takes one off both counts. */
  lemma RemovedFollowCounts(follows: set<Follow>, f: Follow)
    requires f in follows
    ensures CountFollowers(follows - {f}, f.followee) == CountFollowers(follows, f.followee) - 1
    ensures CountFollowing(follows - {f}, f.follower) == CountFollowing(follows, f.follower) - 1
  {
    assert FollowersOf(follows, f.followee) == FollowersOf(follows - {f}, f.followee) + {f};
    assert FollowingOf(follows, f.follower) == FollowingOf(follows - {f}, f.follower) + {f};
  }

  /** A new post adds one to its author's post count and leaves everyone else's as it was. */
  lemma PostCountOfNewPost(posts: map<Uuid, Post>, u: Uuid, p: Post, other: Uuid)
    requires u !in posts && other != p.author
    ensures CountPosts(posts[u := p], p.author) == CountPosts(posts, p.author) + 1
    ensures CountPosts(posts[u := p], other) == CountPosts(posts, other)
  {
    assert PostsBy(posts[u := p], p.author) == PostsBy(posts, p.author) + {u};
    assert PostsBy(posts[u := p], other) == PostsBy(posts, other);
  }
}
