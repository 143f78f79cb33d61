/**
 * FollowRepository: the follow queries over the follow table, a set of
 * (follower, followee) pairs; the unique constraint on the pair makes it
 * the row's identity. Users are also reachable by their numeric id.
 */
module FollowRepository {
  import opened Wrappers
  import opened Seqs
  import opened Entities

  /** `findByFollowerAndFollowee`: the row of exactly that pair, if there is one. */
  function FindByFollowerAndFollowee(follows: set<Follow>, follower: Uuid, followee: Uuid): (r: Option<Follow>)
    ensures r.Some? <==> Follow(follower, followee) in follows
    ensures r.Some? ==> r.value == Follow(follower, followee)
  {
    if Follow(follower, followee) in follows then Some(Follow(follower, followee)) else None
  }

  /** The user whose primary key is `id`. */
  function UserWithId(users: map<Uuid, User>, id: nat): (r: Option<Uuid>)
    requires UniqueUserColumns(users)
    ensures r.Some? <==> exists u :: u in users && users[u].id == id
    ensures r.Some? ==> r.value in users && users[r.value].id == id
  {
    FindUnique(users, (x: User) => x.id, id)
  }

  /** `findByFollowerIdAndFolloweeId`: the same lookup through the users' numeric ids. */
  function FindByFollowerIdAndFolloweeId(users: map<Uuid, User>, follows: set<Follow>, followerId: nat, followeeId: nat)
    : (r: Option<Follow>)
    requires UniqueUserColumns(users)
    ensures r.Some? ==> r.value in follows && r.value.follower in users && r.value.followee in users
    ensures r.Some? ==> users[r.value.follower].id == followerId && users[r.value.followee].id == followeeId
  {
    var a := UserWithId(users, followerId);
    var b := UserWithId(users, followeeId);
    if a.Some? && b.Some? then FindByFollowerAndFollowee(follows, a.value, b.value) else None
  }

  /** With one user per id, the id-based lookup finds exactly what the object-based one finds. */
  lemma IdLookupAgrees(users: map<Uuid, User>, follows: set<Follow>, follower: Uuid, followee: Uuid)
    requires UniqueUserColumns(users) && follower in users && followee in users
    ensures FindByFollowerIdAndFolloweeId(users, follows, users[follower].id, users[followee].id) ==
              FindByFollowerAndFollowee(follows, follower, followee)
  {
    assert UserWithId(users, users[follower].id) == Some(follower);
    assert UserWithId(users, users[followee].id) == Some(followee);
  }

  /** `findByFollowee(user, pageable)` before paging: the rows that follow `user`, in scan order. */
  function FindByFollowee(follows: set<Follow>, rows: seq<Follow>, user: Uuid): (r: seq<Follow>)
    ensures forall f :: f in r <==> f in rows && f in follows && f.followee == user
  {
    FilterMembers(rows, f => f in follows && f.followee == user);
    Filter(rows, f => f in follows && f.followee == user)
  }

  /** `findByFollower(user, pageable)` before paging: the rows in which `user` follows someone. */
  function FindByFollower(follows: set<Follow>, rows: seq<Follow>, user: Uuid): (r: seq<Follow>)
    ensures forall f :: f in r <==> f in rows && f in follows && f.follower == user
  {
    FilterMembers(rows, f => f in follows && f.follower == user);
    Filter(rows, f => f in follows && f.follower == user)
  }

  /** Over a complete scan, each follower of `user` appears exactly once. */
  lemma FindByFolloweeComplete(follows: set<Follow>, rows: seq<Follow>, user: Uuid)
    requires Enumerates(rows, follows)
    ensures NoDups(FindByFollowee(follows, rows, user))
    ensures forall a :: Follow(a, user) in follows <==> Follow(a, user) in FindByFollowee(follows, rows, user)
  {
    FilterNoDups(rows, f => f in follows && f.followee == user);
  }

  /** `findFollowingUuidsByCurrentUserAndUsers`: exactly those of the given users whom `currentUser` follows. */
  function FindFollowingUuidsByCurrentUserAndUsers(follows: set<Follow>, currentUser: Uuid, users: seq<Uuid>)
    : (r: set<Uuid>)
    ensures forall u :: u in r ==> u in users
    ensures forall u :: u in users ==> (u in r <==> FindByFollowerAndFollowee(follows, currentUser, u).Some?)
  {
    set u | u in users && Follow(currentUser, u) in follows
  }
}
