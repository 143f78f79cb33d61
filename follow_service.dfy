/**
 * FollowServiceImpl: the follow toggle (follow an absent pair, unfollow a
 * present one), the unfollow with its guards, and the follower and
 * following listings with their own user mapping.
 */
module FollowService {
  import opened Wrappers
  import opened Entities
  import opened Store
  import opened EmailService
  import UserRepository
  import FollowRepository
  import UserService
  import NotificationService
  import JavaText

  /** The follow table after the state of one pair is flipped: present becomes absent and absent present. */
  function Toggled(follows: set<Follow>, follower: Uuid, followee: Uuid): (r: set<Follow>)
    ensures Follow(follower, followee) in r <==> Follow(follower, followee) !in follows
    ensures forall f :: f != Follow(follower, followee) ==> (f in r <==> f in follows)
  {
    if Follow(follower, followee) in follows then follows - {Follow(follower, followee)}
    else follows + {Follow(follower, followee)}
  }

  /** Two flips of the same pair restore the table. */
  lemma ToggleTwice(follows: set<Follow>, follower: Uuid, followee: Uuid)
    ensures Toggled(Toggled(follows, follower, followee), follower, followee) == follows
  {
    var t := Toggled(Toggled(follows, follower, followee), follower, followee);
    forall f ensures f in t <==> f in follows {
      if f != Follow(follower, followee) {
        assert f in Toggled(follows, follower, followee) <==> f in follows;
      }
    }
  }

  /** A pair of two different stored users keeps the follow table valid, whichever way it is flipped. */
  lemma {:induction false} ToggleKeepsTable(follows: set<Follow>, users: map<Uuid, User>, follower: Uuid, followee: Uuid)
    requires FollowTable(follows, users) && follower in users && followee in users && follower != followee
    ensures FollowTable(Toggled(follows, follower, followee), users)
  {
    forall f | f in Toggled(follows, follower, followee)
      ensures f.follower in users && f.followee in users && f.follower != f.followee
    {
      if f != Follow(follower, followee) {
        assert f in follows;
      }
    }
  }

  /**
   * `unfollowUser(follower, followee)`: refused for oneself and for a pair
   * that is not followed; otherwise exactly that follow row is deleted.
   */
  method UnfollowUser(db: Database, follower: Uuid, followee: Uuid) returns (r: Result<(), ServiceError>)
    requires db.Valid() && follower in db.users && followee in db.users
    modifies db`follows
    ensures db.Valid()
    ensures r.Failure? ==> db.follows == old(db.follows)
    ensures db.users[follower].id == db.users[followee].id ==> r == Failure(IllegalArgument("You cannot unfollow yourself."))
    ensures db.users[follower].id != db.users[followee].id && Follow(follower, followee) !in old(db.follows) ==>
              r == Failure(IllegalState("You are not following this user."))
    ensures db.users[follower].id != db.users[followee].id && Follow(follower, followee) in old(db.follows) ==>
              r.Success? && db.follows == old(db.follows) - {Follow(follower, followee)}
  {
    if db.users[follower].id == db.users[followee].id {
      return Failure(IllegalArgument("You cannot unfollow yourself."));
    }
    var row := FollowRepository.FindByFollowerAndFollowee(db.follows, follower, followee);
    if row.None? {
      return Failure(IllegalState("You are not following this user."));
    }
    ToggleKeepsTable(db.follows, db.users, follower, followee);
    ghost var others := (db.posts, db.users, db.profiles, db.likes, db.notifications, db.nextPostId, db.nextNotificationId);
    db.follows := db.follows - {row.value};
    assert others == (db.posts, db.users, db.profiles, db.likes, db.notifications, db.nextPostId, db.nextNotificationId);
    r := Success(());
  }

  /** The text `followUser` answers with. */
  function FollowMessage(wasFollowing: bool, followeeName: string): (m: string)
    ensures wasFollowing ==> m == "You have unfollowed " + followeeName
    ensures !wasFollowing ==> m == "You are now following " + followeeName
  {
    if wasFollowing then "You have unfollowed " + followeeName else "You are now following " + followeeName
  }

  /**
   * `followUser(followee, viewer)`, one transaction: both users must exist
   * and differ; a followed user is unfollowed without a notification, an
   * unfollowed one is followed and told so by a NEW_FOLLOWER notification
   * whose related entity is the follower.
   */
  method FollowUser(db: Database, mailer: Mailer, followee: Uuid, viewer: string,
                    notification: Uuid, now: int, apiAccepts: bool)
    returns (r: Result<string, ServiceError>)
    requires db.Valid()
    modifies db`follows, db`notifications, db`nextNotificationId, mailer
    ensures db.Valid()
    ensures r.Failure? ==>
              db.follows == old(db.follows) && db.notifications == old(db.notifications) && mailer.sent == old(mailer.sent)
    ensures !UserRepository.ExistsByUsername(db.users, viewer) || followee !in db.users ==> r == Failure(ResourceNotFound)
    ensures UserRepository.ExistsByUsername(db.users, viewer) && followee in db.users ==>
              var follower := UserRepository.FindByUsername(db.users, viewer).value;
              var wasFollowing := Follow(follower, followee) in old(db.follows);
              && (follower == followee ==> r == Failure(IllegalArgument("You cannot follow yourself.")))
              && (follower != followee ==>
                    && r == Success(FollowMessage(wasFollowing, db.users[followee].username))
                    && db.follows == Toggled(old(db.follows), follower, followee))
              && (follower != followee && wasFollowing ==>
                    db.notifications == old(db.notifications) && mailer.sent == old(mailer.sent))
              && (follower != followee && !wasFollowing && !db.users[followee].emailNotificationsEnabled ==>
                    mailer.sent == old(mailer.sent))
              && (follower != followee && !wasFollowing && db.users[followee].emailNotificationsEnabled ==>
                    var n := NewNotification(old(db.nextNotificationId), notification, followee, Some(follower),
                                             NEW_FOLLOWER, Some(follower), now);
                    var sent := old(mailer.sent) + [NotificationService.MailFor(
                                  NotificationService.NotificationEmailRequest(db.posts, db.users, db.profiles, n, None))];
                    mailer.sent == if apiAccepts && JavaText.HasText(Some(db.users[followee].email)) then sent else old(mailer.sent))
              && (follower != followee && !wasFollowing ==>
                    var id := old(db.nextNotificationId);
                    db.notifications == old(db.notifications)[id :=
                      NewNotification(id, notification, followee, Some(follower), NEW_FOLLOWER, Some(follower), now)])
  {
    var me := UserRepository.FindByUsername(db.users, viewer);
    if me.None? || followee !in db.users {
      return Failure(ResourceNotFound);
    }
    var follower := me.value;
    if db.users[follower].id == db.users[followee].id {
      return Failure(IllegalArgument("You cannot follow yourself."));
    }
    var name := db.users[followee].username;
    if FollowRepository.FindByFollowerAndFollowee(db.follows, follower, followee).Some? {
      var _ := UnfollowUser(db, follower, followee);
      return Success(FollowMessage(true, name));
    }
    ToggleKeepsTable(db.follows, db.users, follower, followee);
    ghost var others := (db.posts, db.users, db.profiles, db.likes, db.notifications, db.nextPostId, db.nextNotificationId);
    db.follows := db.follows + {Follow(follower, followee)};
    assert others == (db.posts, db.users, db.profiles, db.likes, db.notifications, db.nextPostId, db.nextNotificationId);
    var _ := NotificationService.CreateNotification(db, mailer, follower, followee, NEW_FOLLOWER, Some(follower), None,
                                                    notification, now, apiAccepts);
    r := Success(FollowMessage(false, name));
  }

  /**
   * FollowServiceImpl's `mapUserToResponse`: the same fields as the user
   * service's mapping (counts from the user's follow and post collections),
   * except that the e-mail notification flag is left null.
   */
  function MapUserToResponse(posts: map<Uuid, Post>, users: map<Uuid, User>, profiles: map<ProfileRef, Profile>,
                             follows: set<Follow>, u: Uuid, isFollowing: bool): (r: UserService.UserResponse)
    requires u in users && ProfilesLinked(users, profiles)
    ensures r.emailNotificationsEnabled.None?
    ensures r.(emailNotificationsEnabled := Some(users[u].emailNotificationsEnabled)) ==
              UserService.MapUserToResponse(posts, users, profiles, follows, u, isFollowing)
  {
    UserService.MapUserToResponse(posts, users, profiles, follows, u, isFollowing).(emailNotificationsEnabled := None)
  }

  /**
   * `getFollowers(user, viewer)`: one response per row of the user's
   * followers collection, in the collection's order, each marked with
   * whether the viewer follows that follower. `rows` is the order the
   * follow table is scanned in.
   */
  method GetFollowers(db: Database, user: Uuid, viewer: Option<string>, rows: seq<Follow>)
    returns (r: Result<seq<UserService.UserResponse>, ServiceError>)
    requires db.Valid()
    ensures user !in db.users ==> r == Failure(ResourceNotFound)
    ensures user in db.users ==>
              var relations := FollowRepository.FindByFollowee(db.follows, rows, user);
              && r.Success? && |r.value| == |relations|
              && forall k :: 0 <= k < |relations| ==>
                   relations[k].follower in db.users &&
                   r.value[k] == MapUserToResponse(db.posts, db.users, db.profiles, db.follows, relations[k].follower,
                                                   UserService.IsFollowing(db.users, db.follows, relations[k].follower, viewer))
  {
    if user !in db.users {
      return Failure(ResourceNotFound);
    }
    var relations := FollowRepository.FindByFollowee(db.follows, rows, user);
    var list := [];
    for i := 0 to |relations|
      invariant |list| == i
      invariant forall k :: 0 <= k < i ==>
                  relations[k].follower in db.users &&
                  list[k] == MapUserToResponse(db.posts, db.users, db.profiles, db.follows, relations[k].follower,
                                               UserService.IsFollowing(db.users, db.follows, relations[k].follower, viewer))
    {
      var f := relations[i];
      assert f in relations;
      list := list + [MapUserToResponse(db.posts, db.users, db.profiles, db.follows, f.follower,
                                        UserService.IsFollowing(db.users, db.follows, f.follower, viewer))];
    }
    r := Success(list);
  }

  /** `getFollowing(user, viewer)`: the same for the rows in which the user is the follower, mapping each followee. */
  method GetFollowing(db: Database, user: Uuid, viewer: Option<string>, rows: seq<Follow>)
    returns (r: Result<seq<UserService.UserResponse>, ServiceError>)
    requires db.Valid()
    ensures user !in db.users ==> r == Failure(ResourceNotFound)
    ensures user in db.users ==>
              var relations := FollowRepository.FindByFollower(db.follows, rows, user);
              && r.Success? && |r.value| == |relations|
              && forall k :: 0 <= k < |relations| ==>
                   relations[k].followee in db.users &&
                   r.value[k] == MapUserToResponse(db.posts, db.users, db.profiles, db.follows, relations[k].followee,
                                                   UserService.IsFollowing(db.users, db.follows, relations[k].followee, viewer))
  {
    if user !in db.users {
      return Failure(ResourceNotFound);
    }
    var relations := FollowRepository.FindByFollower(db.follows, rows, user);
    var list := [];
    for i := 0 to |relations|
      invariant |list| == i
      invariant forall k :: 0 <= k < i ==>
                  relations[k].followee in db.users &&
                  list[k] == MapUserToResponse(db.posts, db.users, db.profiles, db.follows, relations[k].followee,
                                               UserService.IsFollowing(db.users, db.follows, relations[k].followee, viewer))
    {
      var f := relations[i];
      assert f in relations;
      list := list + [MapUserToResponse(db.posts, db.users, db.profiles, db.follows, f.followee,
                                        UserService.IsFollowing(db.users, db.follows, f.followee, viewer))];
    }
    r := Success(list);
  }
}
