/**
 * AuthServiceImpl.registerUser: the ordered uniqueness checks (username
 * first, then e-mail), the new user row with its encoded password, the
 * optional profile holding the picture URL, and the password-free answer.
 */
module AuthService {
  import opened Wrappers
  import opened Entities
  import opened Store
  import opened Registration
  import UserRepository

  /** The e-mail notification switch of a new account. */
  const NewUserEmailNotifications: bool := true

  /** The auth `UserResponseDTO`: no password in it. */
  datatype RegisteredUser = RegisteredUser(uuid: Uuid, username: string, email: string, profilePictureUrl: Option<string>)

  /** Adding a user whose id, username and e-mail are all new, linked to a new profile or to none, keeps the user table consistent. */
  lemma {:induction false} NewUserKeepsUserTable(users: map<Uuid, User>, profiles: map<ProfileRef, Profile>,
                                                 nu: User, prof: Option<(ProfileRef, Profile)>)
    requires UserTable(users, profiles) && nu.uuid !in users
    requires forall u :: u in users ==> users[u].id != nu.id && users[u].username != nu.username && users[u].email != nu.email
    requires prof.None? ==> nu.profile.None?
    requires prof.Some? ==> nu.profile == Some(prof.value.0) && prof.value.0 !in profiles && prof.value.1.user == Some(nu.uuid)
    ensures var profiles' := if prof.Some? then profiles[prof.value.0 := prof.value.1] else profiles;
            UserTable(users[nu.uuid := nu], profiles')
  {
    var users' := users[nu.uuid := nu];
    var profiles' := if prof.Some? then profiles[prof.value.0 := prof.value.1] else profiles;
    forall a, b | a in users' && b in users' && users'[a].username == users'[b].username ensures a == b {
      if a != nu.uuid && b != nu.uuid {
        assert users[a].username == users[b].username;
      }
    }
    forall a, b | a in users' && b in users' && users'[a].email == users'[b].email ensures a == b {
      if a != nu.uuid && b != nu.uuid {
        assert users[a].email == users[b].email;
      }
    }
    forall a, b | a in users' && b in users' && users'[a].id == users'[b].id ensures a == b {
      if a != nu.uuid && b != nu.uuid {
        assert users[a].id == users[b].id;
      }
    }
    forall v | v in users' && users'[v].profile.Some?
      ensures users'[v].profile.value in profiles' && profiles'[users'[v].profile.value].user == Some(v)
    {
      if v != nu.uuid {
        assert users[v].profile.value in profiles;
      }
    }
  }

  /**
   * `registerUser(request)`, one transaction: a taken username is refused
   * before the e-mail is looked at, then a taken e-mail; otherwise one user
   * is saved with the requested username and e-mail and the encoded
   * password, with a profile holding the picture URL exactly when that URL
   * is valid. The request's full name is not stored.
   */
  method RegisterUser(db: Database, req: RegistrationRequest, encode: string -> string,
                      uuid: Uuid, id: nat, newProfile: ProfileRef, now: int)
    returns (r: Result<RegisteredUser, ServiceError>)
    requires db.Valid() && IsValidRequest(req)
    requires uuid !in db.users && uuid !in db.posts && newProfile !in db.profiles
    requires forall u :: u in db.users ==> db.users[u].id != id
    modifies db`users, db`profiles
    ensures db.Valid()
    ensures r.Failure? ==> db.users == old(db.users) && db.profiles == old(db.profiles)
    ensures UserRepository.ExistsByUsername(old(db.users), req.username.value) ==>
              r == Failure(IllegalState("Username is already taken"))
    ensures !UserRepository.ExistsByUsername(old(db.users), req.username.value) &&
            UserRepository.ExistsByEmail(old(db.users), req.email.value) ==>
              r == Failure(IllegalState("Email is already in use"))
    ensures !UserRepository.ExistsByUsername(old(db.users), req.username.value) &&
            !UserRepository.ExistsByEmail(old(db.users), req.email.value) ==>
              var picture := if IsProfilePictureUrlValid(req) then req.profilePictureUrl else None;
              && r == Success(RegisteredUser(uuid, req.username.value, req.email.value, picture))
              && db.users.Keys == old(db.users).Keys + {uuid}
              && (forall u :: u in old(db.users) ==> db.users[u] == old(db.users)[u])
              && db.users[uuid].id == id && db.users[uuid].username == req.username.value
              && db.users[uuid].email == req.email.value && db.users[uuid].password == encode(req.password.value)
              && db.users[uuid].createdAt == now
              && (IsProfilePictureUrlValid(req) ==>
                    && db.users[uuid].profile == Some(newProfile)
                    && db.profiles == old(db.profiles)[newProfile := Profile(Some(uuid), None, picture, None)])
              && (!IsProfilePictureUrlValid(req) ==> db.users[uuid].profile.None? && db.profiles == old(db.profiles))
  {
    var username, email := req.username.value, req.email.value;
    if UserRepository.ExistsByUsername(db.users, username) {
      return Failure(IllegalState("Username is already taken"));
    }
    if UserRepository.ExistsByEmail(db.users, email) {
      return Failure(IllegalState("Email is already in use"));
    }
    var user := User(id, uuid, username, email, "", now, now, None, NewUserEmailNotifications);
    var prof: Option<(ProfileRef, Profile)> := None;
    if IsProfilePictureUrlValid(req) {
      prof := Some((newProfile, EmptyProfile.(profilePictureUrl := req.profilePictureUrl, user := Some(uuid))));
      user := user.(profile := Some(newProfile));
    }
    user := user.(password := encode(req.password.value));
    NewUserKeepsUserTable(db.users, db.profiles, user, prof);
    var users := db.users[uuid := user];
    var profiles := if prof.Some? then db.profiles[prof.value.0 := prof.value.1] else db.profiles;
    UserRowsKeepTables(db.posts, db.users, db.profiles, db.follows, db.likes, db.notifications,
                       db.nextPostId, db.nextNotificationId, users, profiles);
    ghost var others := (db.posts, db.follows, db.likes, db.notifications, db.nextPostId, db.nextNotificationId);
    db.users, db.profiles := users, profiles;   // userRepository.save(user), the profile by cascade
    assert others == (db.posts, db.follows, db.likes, db.notifications, db.nextPostId, db.nextNotificationId);
    var saved := db.users[uuid];
    var picture := if saved.profile.Some? then db.profiles[saved.profile.value].profilePictureUrl else None;
    r := Success(RegisteredUser(saved.uuid, saved.username, saved.email, picture));
  }
}
