/**
 * LikeRepository: the like queries over the like table, a set of
 * (user, post) pairs; the table's unique constraint makes a pair the row's
 * identity, so at most one like exists per pair by construction.
 */
module LikeRepository {
  import opened Wrappers
  import opened Seqs
  import opened Entities

  /** `findByUserAndPost`: the like of exactly that pair, if there is one. */
  function FindByUserAndPost(likes: set<Like>, user: Uuid, post: Uuid): (r: Option<Like>)
    ensures r.Some? <==> Like(user, post) in likes
    ensures r.Some? ==> r.value.user == user && r.value.post == post
  {
    if Like(user, post) in likes then Some(Like(user, post)) else None
  }

  /** `findByUser(user, pageable)` before paging: that user's likes, in scan order. */
  function FindByUser(likes: set<Like>, rows: seq<Like>, user: Uuid): (r: seq<Like>)
    ensures forall l :: l in r <==> l in rows && l in likes && l.user == user
  {
    FilterMembers(rows, l => l in likes && l.user == user);
    Filter(rows, l => l in likes && l.user == user)
  }

  /** A complete scan gives every like of the user exactly once. */
  lemma FindByUserComplete(likes: set<Like>, rows: seq<Like>, user: Uuid)
    requires Enumerates(rows, likes)
    ensures NoDups(FindByUser(likes, rows, user))
    ensures forall l :: l in FindByUser(likes, rows, user) <==> l in likes && l.user == user
  {
    FilterNoDups(rows, l => l in likes && l.user == user);
  }

  /** `findLikedPostUuidsByUserAndPosts`: which of the given posts the user liked. */
  function FindLikedPostUuidsByUserAndPosts(likes: set<Like>, user: Uuid, posts: seq<Uuid>): (r: set<Uuid>)
    ensures forall u :: u in r ==> u in posts
    ensures forall u :: u in posts ==> (u in r <==> FindByUserAndPost(likes, user, u).Some?)
  {
    set u | u in posts && Like(user, u) in likes
  }
}
