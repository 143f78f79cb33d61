/**
 * UserServiceImpl: a user's public details, the partial profile update,
 * the suggested-users and all-users listings, and the e-mail notification
 * switch. The viewer (`UserDetails`, possibly null) is the username the
 * request was authenticated with.
 */
module UserService {
  import opened Wrappers
  import opened Seqs
  import opened Entities
  import opened Store
  import UserRepository
  import FollowRepository

  /** `UserResponseDTO` as the services fill it in. */
  datatype UserResponse = UserResponse(
    uuid: Uuid,
    username: string,
    email: string,
    followersCount: nat,
    followingCount: nat,
    postCount: nat,
    currentUserFollowing: bool,
    emailNotificationsEnabled: Option<bool>,   // left null by FollowServiceImpl's mapping
    profilePictureUrl: Option<string>,
    bio: Option<string>,
    fullName: Option<string>)

  /**
   * `isFollowing(user, viewer)`: false without a viewer, for a viewer no
   * user has as username, and for the user themself; otherwise whether the
   * viewer follows the user.
   */
  function IsFollowing(users: map<Uuid, User>, follows: set<Follow>, user: Uuid, viewer: Option<string>): (r: bool)
    requires UniqueUserColumns(users) && user in users
    ensures r <==> viewer.Some? &&
                   exists c :: c in users && users[c].username == viewer.value && c != user && Follow(c, user) in follows
  {
    if viewer.None? then false
    else
      var current := UserRepository.FindByUsername(users, viewer.value);
      if current.None? || users[current.value].id == users[user].id then false
      else FollowRepository.FindByFollowerAndFollowee(follows, current.value, user).Some?
  }

  /** Nobody follows themself, whatever the follow table holds. */
  lemma {:induction false} ViewerNeverFollowsSelf(users: map<Uuid, User>, follows: set<Follow>, user: Uuid)
    requires UniqueUserColumns(users) && user in users
    ensures !IsFollowing(users, follows, user, Some(users[user].username))
  {
    forall c | c in users && users[c].username == users[user].username ensures c == user {
    }
  }

  /**
   * `mapUserToResponse(user, isFollowing)`: the counts come from the
   * follow and post tables; profile fields are copied only when the user has
   * a profile and stay null otherwise.
   */
  function MapUserToResponse(posts: map<Uuid, Post>, users: map<Uuid, User>, profiles: map<ProfileRef, Profile>,
                             follows: set<Follow>, u: Uuid, isFollowing: bool): (r: UserResponse)
    requires u in users && ProfilesLinked(users, profiles)
    ensures r.uuid == u && r.username == users[u].username && r.email == users[u].email
    ensures r.followersCount == |set f | f in follows && f.followee == u|
    ensures r.followingCount == |set f | f in follows && f.follower == u|
    ensures r.postCount == |set p | p in posts && posts[p].author == u|
    ensures r.currentUserFollowing == isFollowing
    ensures r.emailNotificationsEnabled == Some(users[u].emailNotificationsEnabled)
    ensures users[u].profile.None? ==> r.profilePictureUrl.None? && r.bio.None? && r.fullName.None?
    ensures users[u].profile.Some? ==>
              var p := profiles[users[u].profile.value];
              r.profilePictureUrl == p.profilePictureUrl && r.bio == p.bio && r.fullName == p.fullName
  {
    var followers := UserRepository.CountFollowers(follows, u);
    var following := UserRepository.CountFollowing(follows, u);
    var postCount := UserRepository.CountPosts(posts, u);
    assert UserRepository.FollowersOf(follows, u) == set f | f in follows && f.followee == u;
    assert UserRepository.FollowingOf(follows, u) == set f | f in follows && f.follower == u;
    assert UserRepository.PostsBy(posts, u) == set p | p in posts && posts[p].author == u;
    var base := UserResponse(u, users[u].username, users[u].email, followers, following, postCount, isFollowing,
                             Some(users[u].emailNotificationsEnabled), None, None, None);
    if users[u].profile.Some? then
      var p := profiles[users[u].profile.value];
      base.(profilePictureUrl := p.profilePictureUrl, bio := p.bio, fullName := p.fullName)
    else base
  }

  /** `getUserDetailsByUsername(username, viewer)`: ResourceNotFoundException for an unknown username. */
  function GetUserDetailsByUsername(posts: map<Uuid, Post>, users: map<Uuid, User>, profiles: map<ProfileRef, Profile>,
                                    follows: set<Follow>, username: string, viewer: Option<string>)
    : (r: Result<UserResponse, ServiceError>)
    requires UserTable(users, profiles)
    ensures r.Failure? <==> !UserRepository.ExistsByUsername(users, username)
    ensures r.Failure? ==> r.error == ResourceNotFound
    ensures r.Success? ==>
              exists u :: u in users && users[u].username == username &&
                          r.value == MapUserToResponse(posts, users, profiles, follows, u,
                                                       IsFollowing(users, follows, u, viewer))
  {
    match UserRepository.FindByUsername(users, username)
    case None => Failure(ResourceNotFound)
    case Some(u) => Success(MapUserToResponse(posts, users, profiles, follows, u, IsFollowing(users, follows, u, viewer)))
  }

  /** `getCurrentUserDetails(viewer)`: one's own details, never marked as followed. */
  function GetCurrentUserDetails(posts: map<Uuid, Post>, users: map<Uuid, User>, profiles: map<ProfileRef, Profile>,
                                 follows: set<Follow>, viewer: string)
    : (r: Result<UserResponse, ServiceError>)
    requires UserTable(users, profiles)
    ensures r == GetUserDetailsByUsername(posts, users, profiles, follows, viewer, Some(viewer))
    ensures r.Failure? <==> !UserRepository.ExistsByUsername(users, viewer)
    ensures r.Failure? ==> r.error == ResourceNotFound
    ensures r.Success? ==> r.value.username == viewer && !r.value.currentUserFollowing
  {
    var r := GetUserDetailsByUsername(posts, users, profiles, follows, viewer, Some(viewer));
    if r.Success? then
      var u :| u in users && users[u].username == viewer &&
               r.value == MapUserToResponse(posts, users, profiles, follows, u, IsFollowing(users, follows, u, Some(viewer)));
      ViewerNeverFollowsSelf(users, follows, u);
      r
    else r
  }

  // ---------------------------------------------------------------------------
  // updateUserProfile

  /** `UserProfileUpdateDTO`: null fields mean "leave as it is". */
  datatype ProfileUpdate = ProfileUpdate(fullName: Option<string>, bio: Option<string>, username: Option<string>)

  /**
   * The `profileImage` part and the outcome of uploading it: absent or an
   * empty file, a file the uploader stored under `url`, or a file whose
   * upload failed with an IOException.
   */
  datatype ProfileImage = NoImage | Uploaded(url: string) | UploadError

  /** The profile after the update: its owner is `u`, and each field with a value in the request is replaced. */
  function EditedProfile(before: Profile, u: Uuid, dto: ProfileUpdate, image: ProfileImage): (r: Profile)
    ensures r.user == Some(u)
    ensures dto.fullName.Some? ==> r.fullName == dto.fullName
    ensures dto.fullName.None? ==> r.fullName == before.fullName
    ensures dto.bio.Some? ==> r.bio == dto.bio
    ensures dto.bio.None? ==> r.bio == before.bio
    ensures image.Uploaded? ==> r.profilePictureUrl == Some(image.url)
    ensures !image.Uploaded? ==> r.profilePictureUrl == before.profilePictureUrl
  {
    Profile(Some(u),
            if dto.bio.Some? then dto.bio else before.bio,
            if image.Uploaded? then Some(image.url) else before.profilePictureUrl,
            if dto.fullName.Some? then dto.fullName else before.fullName)
  }

  /** The username after the update: the requested one, when there is one. */
  function EditedUsername(current: string, dto: ProfileUpdate): (r: string)
    ensures dto.username.Some? ==> r == dto.username.value
    ensures dto.username.None? ==> r == current
  {
    if dto.username.Some? && dto.username.value != current then dto.username.value else current
  }

  /** Whether the request asks for a username some other user already has. */
  predicate UsernameClash(users: map<Uuid, User>, u: Uuid, dto: ProfileUpdate)
    requires u in users
  {
    dto.username.Some? && dto.username.value != users[u].username &&
    UserRepository.ExistsByUsername(users, dto.username.value)
  }

  /** The profile the update writes to: the user's own, or the new one it creates. */
  function ProfileOf(users: map<Uuid, User>, u: Uuid, newProfile: ProfileRef): (p: ProfileRef)
    requires u in users
    ensures users[u].profile.Some? ==> p == users[u].profile.value
    ensures users[u].profile.None? ==> p == newProfile
  {
    if users[u].profile.Some? then users[u].profile.value else newProfile
  }

  /**
   * Renaming a user to a free username and giving them a profile that is
   * theirs or new keeps the user table consistent: columns unique, profile
   * links in both directions.
   */
  lemma {:induction false} ProfileEditKeepsUserTable(users: map<Uuid, User>, profiles: map<ProfileRef, Profile>,
                                                     u: Uuid, name: string, p: ProfileRef, prof: Profile)
    requires UserTable(users, profiles) && u in users
    requires name == users[u].username || !UserRepository.ExistsByUsername(users, name)
    requires users[u].profile == Some(p) || (users[u].profile.None? && p !in profiles)
    requires prof.user == Some(u)
    ensures UserTable(users[u := users[u].(username := name, profile := Some(p))], profiles[p := prof])
  {
    RenameKeepsUnique(users, u, name, Some(p));
    LinkKeepsProfilesLinked(users, profiles, u, name, p, prof);
  }

  /** A new username nobody else has keeps the unique columns unique, whatever happens to the profile link. */
  lemma {:induction false} RenameKeepsUnique(users: map<Uuid, User>, u: Uuid, name: string, link: Option<ProfileRef>)
    requires UsersKeyed(users) && UniqueUserColumns(users) && u in users
    requires name == users[u].username || !UserRepository.ExistsByUsername(users, name)
    ensures var users' := users[u := users[u].(username := name, profile := link)];
            UsersKeyed(users') && UniqueUserColumns(users')
  {
    var users' := users[u := users[u].(username := name, profile := link)];
    forall v | v in users && v != u ensures users[v].username != name {
      if name == users[u].username {
        assert users[v].username != users[u].username;
      }
    }
    forall a, b | a in users' && b in users' && users'[a].username == users'[b].username ensures a == b {
      if a != u && b != u {
        assert users[a].username == users[b].username;
      }
    }
    forall a, b | a in users' && b in users' && users'[a].email == users'[b].email ensures a == b {
      assert users[a].email == users[b].email;
    }
    forall a, b | a in users' && b in users' && users'[a].id == users'[b].id ensures a == b {
      assert users[a].id == users[b].id;
    }
  }

  /** Pointing a user at their own or a new profile that points back keeps every profile link two-way. */
  lemma {:induction false} LinkKeepsProfilesLinked(users: map<Uuid, User>, profiles: map<ProfileRef, Profile>,
                                                   u: Uuid, name: string, p: ProfileRef, prof: Profile)
    requires ProfilesLinked(users, profiles) && u in users
    requires users[u].profile == Some(p) || (users[u].profile.None? && p !in profiles)
    requires prof.user == Some(u)
    ensures ProfilesLinked(users[u := users[u].(username := name, profile := Some(p))], profiles[p := prof])
  {
    var users' := users[u := users[u].(username := name, profile := Some(p))];
    var profiles' := profiles[p := prof];
    forall v | v in users && v != u && users[v].profile.Some? ensures users[v].profile.value != p {
      if users[u].profile == Some(p) {
        assert profiles[p].user == Some(u);
      }
    }
    forall v | v in users' && users'[v].profile.Some?
      ensures users'[v].profile.value in profiles' && profiles'[users'[v].profile.value].user == Some(v)
    {
      if v != u {
        assert users'[v].profile == users[v].profile;
      }
    }
  }

  /**
   * The steps of `updateUserProfile` on the caller's user row and profile
   * object: a missing profile is created and linked both ways
   * (`setUserProfile`), then the full name, the username, the bio and the
   * picture are written in that order. Either failure stops the method.
   */
  method EditUserRows(users: map<Uuid, User>, profiles: map<ProfileRef, Profile>, u: Uuid, dto: ProfileUpdate,
                      image: ProfileImage, newProfile: ProfileRef)
    returns (r: Result<UserTables, ServiceError>)
    requires UserTable(users, profiles) && u in users && newProfile !in profiles
    ensures UsernameClash(users, u, dto) ==> r == Failure(IllegalArgument("Username is already taken."))
    ensures !UsernameClash(users, u, dto) && image.UploadError? ==> r == Failure(UploadFailed)
    ensures !UsernameClash(users, u, dto) && !image.UploadError? ==>
              var p := ProfileOf(users, u, newProfile);
              var before := if users[u].profile.Some? then profiles[p] else EmptyProfile;
              r == Success(UserTables(
                     users[u := users[u].(username := EditedUsername(users[u].username, dto), profile := Some(p))],
                     profiles[p := EditedProfile(before, u, dto, image)]))
  {
    var row := users[u];
    var p: ProfileRef;
    var prof: Profile;
    if row.profile.None? {
      p, prof := newProfile, EmptyProfile.(user := Some(u));
      row := row.(profile := Some(p));
    } else {
      p := row.profile.value;
      prof := profiles[p];
    }
    if dto.fullName.Some? {
      prof := prof.(fullName := dto.fullName);
    }
    if dto.username.Some? && dto.username.value != row.username {
      if UserRepository.ExistsByUsername(users, dto.username.value) {
        return Failure(IllegalArgument("Username is already taken."));
      }
      row := row.(username := dto.username.value);
    }
    if dto.bio.Some? {
      prof := prof.(bio := dto.bio);
    }
    match image {
      case NoImage =>
      case Uploaded(url) =>
        prof := prof.(profilePictureUrl := Some(url));
      case UploadError =>
        return Failure(UploadFailed);
    }
    r := Success(UserTables(users[u := row], profiles[p := prof]));
  }

  /**
   * `updateUserProfile(viewer, dto, image)`, one transaction: the caller's
   * row and profile are edited as `EditUserRows` says and saved; a refused
   * username or a failed upload rolls every change back. The answer is the
   * caller's details, read with the viewer the request was authenticated as,
   * so never marked as followed.
   */
  method UpdateUserProfile(db: Database, viewer: string, dto: ProfileUpdate, image: ProfileImage, newProfile: ProfileRef)
    returns (r: Result<UserResponse, ServiceError>)
    requires db.Valid() && newProfile !in db.profiles
    modifies db`users, db`profiles
    ensures db.Valid()
    ensures r.Failure? ==> db.users == old(db.users) && db.profiles == old(db.profiles)
    ensures !UserRepository.ExistsByUsername(old(db.users), viewer) ==> r == Failure(UsernameNotFound)
    ensures UserRepository.ExistsByUsername(old(db.users), viewer) ==>
              var u := UserRepository.FindByUsername(old(db.users), viewer).value;
              var p := ProfileOf(old(db.users), u, newProfile);
              var before := if old(db.users)[u].profile.Some? then old(db.profiles)[p] else EmptyProfile;
              && (UsernameClash(old(db.users), u, dto) ==> r == Failure(IllegalArgument("Username is already taken.")))
              && (!UsernameClash(old(db.users), u, dto) && image.UploadError? ==> r == Failure(UploadFailed))
              && (!UsernameClash(old(db.users), u, dto) && !image.UploadError? ==>
                    && db.users == old(db.users)[u := old(db.users)[u].(username := EditedUsername(old(db.users)[u].username, dto),
                                                                       profile := Some(p))]
                    && db.profiles == old(db.profiles)[p := EditedProfile(before, u, dto, image)]
                    && r == Success(MapUserToResponse(db.posts, db.users, db.profiles, db.follows, u, false)))
  {
    var found := UserRepository.FindByUsername(db.users, viewer);
    if found.None? {
      return Failure(UsernameNotFound);
    }
    var u := found.value;
    var edited := EditUserRows(db.users, db.profiles, u, dto, image, newProfile);
    if edited.Failure? {
      return Failure(edited.error);
    }
    var p := ProfileOf(db.users, u, newProfile);
    ghost var before := if db.users[u].profile.Some? then db.profiles[p] else EmptyProfile;
    ProfileEditKeepsUserTable(db.users, db.profiles, u, EditedUsername(db.users[u].username, dto), p,
                              EditedProfile(before, u, dto, image));
    UserRowsKeepTables(db.posts, db.users, db.profiles, db.follows, db.likes, db.notifications,
                       db.nextPostId, db.nextNotificationId, edited.value.users, edited.value.profiles);
    ghost var others := (db.posts, db.follows, db.likes, db.notifications, db.nextPostId, db.nextNotificationId);
    db.users, db.profiles := edited.value.users, edited.value.profiles;   // userRepository.save(user)
    assert others == (db.posts, db.follows, db.likes, db.notifications, db.nextPostId, db.nextNotificationId);
    r := GetUserDetailsByUsername(db.posts, db.users, db.profiles, db.follows, db.users[u].username, Some(viewer));
    ViewerNeverFollowsSelf(db.users, db.follows, u);
  }

  // ---------------------------------------------------------------------------
  // Listings

  /** One response per listed user, in listing order. */
  function MapUsers(posts: map<Uuid, Post>, users: map<Uuid, User>, profiles: map<ProfileRef, Profile>,
                    follows: set<Follow>, ids: seq<Uuid>, flag: Uuid -> bool): (r: seq<UserResponse>)
    requires ProfilesLinked(users, profiles) && forall x :: x in ids ==> x in users
    ensures |r| == |ids|
    ensures forall k :: 0 <= k < |ids| ==> r[k] == MapUserToResponse(posts, users, profiles, follows, ids[k], flag(ids[k]))
  {
    seq(|ids|, k requires 0 <= k < |ids| => MapUserToResponse(posts, users, profiles, follows, ids[k], flag(ids[k])))
  }

  /** `PagedResponseDTO` built from a page of users: mapped content, metadata copied. */
  function UserPage(posts: map<Uuid, Post>, users: map<Uuid, User>, profiles: map<ProfileRef, Profile>,
                    follows: set<Follow>, page: Page<Uuid>, flag: Uuid -> bool): (r: PagedResponse<UserResponse>)
    requires ProfilesLinked(users, profiles) && forall x :: x in page.content ==> x in users
    ensures r.content == MapUsers(posts, users, profiles, follows, page.content, flag)
    ensures r.currentPage == page.number && r.totalPages == page.totalPages
    ensures r.totalItems == page.totalElements && r.isLast == page.isLast
  {
    PagedResponse(MapUsers(posts, users, profiles, follows, page.content, flag),
                  page.number, page.totalPages, page.totalElements, page.isLast)
  }

  /**
   * `getSuggestedUsers(viewer, pageable)`: a page of the users the viewer
   * does not follow (the viewer excluded), newest first, each marked as not
   * followed. `rows` is the order the user table is scanned in.
   */
  function GetSuggestedUsers(posts: map<Uuid, Post>, users: map<Uuid, User>, profiles: map<ProfileRef, Profile>,
                             follows: set<Follow>, viewer: string, rows: seq<Uuid>, pageable: Pageable)
    : (r: Result<PagedResponse<UserResponse>, ServiceError>)
    requires UserTable(users, profiles) && pageable.size > 0
    ensures r.Failure? <==> !UserRepository.ExistsByUsername(users, viewer)
    ensures r.Failure? ==> r.error == UsernameNotFound
    ensures r.Success? ==>
              var me := UserRepository.FindByUsername(users, viewer).value;
              var page := Paginate(UserRepository.FindTopUsersNotFollowedBy(users, follows, me, rows), pageable);
              r.value == UserPage(posts, users, profiles, follows, page, _ => false)
  {
    match UserRepository.FindByUsername(users, viewer)
    case None => Failure(UsernameNotFound)
    case Some(me) =>
      var page := Paginate(UserRepository.FindTopUsersNotFollowedBy(users, follows, me, rows), pageable);
      Success(UserPage(posts, users, profiles, follows, page, _ => false))
  }

  /**
   * Every suggestion is another user the viewer does not follow, so the
   * constant "not followed" mark agrees with `isFollowing`.
   */
  lemma {:induction false} SuggestionsAreNotFollowed(posts: map<Uuid, Post>, users: map<Uuid, User>,
                                                     profiles: map<ProfileRef, Profile>, follows: set<Follow>,
                                                     viewer: string, rows: seq<Uuid>, pageable: Pageable, k: nat)
    requires UserTable(users, profiles) && pageable.size > 0
    requires GetSuggestedUsers(posts, users, profiles, follows, viewer, rows, pageable).Success?
    requires k < |GetSuggestedUsers(posts, users, profiles, follows, viewer, rows, pageable).value.content|
    ensures var item := GetSuggestedUsers(posts, users, profiles, follows, viewer, rows, pageable).value.content[k];
            && item.uuid in users && item.username != viewer
            && !item.currentUserFollowing
            && item.currentUserFollowing == IsFollowing(users, follows, item.uuid, Some(viewer))
  {
    var me := UserRepository.FindByUsername(users, viewer).value;
    var all := UserRepository.FindTopUsersNotFollowedBy(users, follows, me, rows);
    var page := Paginate(all, pageable);
    var x := page.content[k];
    assert x in all;
    forall c | c in users && users[c].username == viewer ensures c == me {
    }
  }

  /**
   * `getAllUsers(viewer, pageable)`: a page of every user but the viewer,
   * newest first, each marked with whether the viewer follows them.
   */
  function GetAllUsers(posts: map<Uuid, Post>, users: map<Uuid, User>, profiles: map<ProfileRef, Profile>,
                       follows: set<Follow>, viewer: string, rows: seq<Uuid>, pageable: Pageable)
    : (r: Result<PagedResponse<UserResponse>, ServiceError>)
    requires UserTable(users, profiles) && pageable.size > 0
    ensures r.Failure? <==> !UserRepository.ExistsByUsername(users, viewer)
    ensures r.Failure? ==> r.error == UsernameNotFound
    ensures r.Success? ==>
              var me := UserRepository.FindByUsername(users, viewer).value;
              var page := Paginate(UserRepository.FindAllUsersExceptForCurrentUser(users, me, rows), pageable);
              r.value == UserPage(posts, users, profiles, follows, page,
                                  x => x in users && IsFollowing(users, follows, x, Some(viewer)))
  {
    match UserRepository.FindByUsername(users, viewer)
    case None => Failure(UsernameNotFound)
    case Some(me) =>
      var page := Paginate(UserRepository.FindAllUsersExceptForCurrentUser(users, me, rows), pageable);
      Success(UserPage(posts, users, profiles, follows, page, x => x in users && IsFollowing(users, follows, x, Some(viewer))))
  }

  /** In the full listing the mark is exactly "the viewer has a follow row to this user", and the viewer is never listed. */
  lemma {:induction false} AllUsersMarkFollowRows(posts: map<Uuid, Post>, users: map<Uuid, User>,
                                                  profiles: map<ProfileRef, Profile>, follows: set<Follow>,
                                                  viewer: string, rows: seq<Uuid>, pageable: Pageable, k: nat)
    requires UserTable(users, profiles) && pageable.size > 0
    requires GetAllUsers(posts, users, profiles, follows, viewer, rows, pageable).Success?
    requires k < |GetAllUsers(posts, users, profiles, follows, viewer, rows, pageable).value.content|
    ensures var me := UserRepository.FindByUsername(users, viewer).value;
            var item := GetAllUsers(posts, users, profiles, follows, viewer, rows, pageable).value.content[k];
            && item.uuid in users && item.uuid != me
            && (item.currentUserFollowing <==> Follow(me, item.uuid) in follows)
  {
    var me := UserRepository.FindByUsername(users, viewer).value;
    var page := Paginate(UserRepository.FindAllUsersExceptForCurrentUser(users, me, rows), pageable);
    var x := page.content[k];
    assert x in UserRepository.FindAllUsersExceptForCurrentUser(users, me, rows);
    if IsFollowing(users, follows, x, Some(viewer)) {
      var c :| c in users && users[c].username == viewer && c != x && Follow(c, x) in follows;
      assert c == me;
    }
  }

  // ---------------------------------------------------------------------------
  // updateEmailNotificationSetting

  /** `updateEmailNotificationSetting(viewer, enabled)`: sets that one flag of the caller's row. */
  method UpdateEmailNotificationSetting(db: Database, viewer: string, enabled: bool) returns (r: Result<(), ServiceError>)
    requires db.Valid()
    modifies db`users
    ensures db.Valid()
    ensures !UserRepository.ExistsByUsername(old(db.users), viewer) ==>
              r == Failure(UsernameNotFound) && db.users == old(db.users)
    ensures UserRepository.ExistsByUsername(old(db.users), viewer) ==>
              var u := UserRepository.FindByUsername(old(db.users), viewer).value;
              r.Success? && db.users == old(db.users)[u := old(db.users)[u].(emailNotificationsEnabled := enabled)]
  {
    var found := UserRepository.FindByUsername(db.users, viewer);
    if found.None? {
      return Failure(UsernameNotFound);
    }
    var u := found.value;
    var users := db.users[u := db.users[u].(emailNotificationsEnabled := enabled)];
    assert UserTable(users, db.profiles) by {
      forall a, b | a in users && b in users && users[a].username == users[b].username ensures a == b {
        assert db.users[a].username == db.users[b].username;
      }
      forall a, b | a in users && b in users && users[a].email == users[b].email ensures a == b {
        assert db.users[a].email == db.users[b].email;
      }
      forall a, b | a in users && b in users && users[a].id == users[b].id ensures a == b {
        assert db.users[a].id == db.users[b].id;
      }
    }
    UserRowsKeepTables(db.posts, db.users, db.profiles, db.follows, db.likes, db.notifications,
                       db.nextPostId, db.nextNotificationId, users, db.profiles);
    ghost var others := (db.posts, db.profiles, db.follows, db.likes, db.notifications, db.nextPostId, db.nextNotificationId);
    db.users := users;
    assert others == (db.posts, db.profiles, db.follows, db.likes, db.notifications, db.nextPostId, db.nextNotificationId);
    r := Success(());
  }
}
