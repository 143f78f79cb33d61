/**
 * PostRepository: the post queries as functions over the tables. A query
 * that returns rows in some order takes `rows`, the order in which the
 * database scans the post table; ORDER BY is a stable sort of that scan.
 * Paging is applied afterwards with `Seqs.Paginate`.
 */
module PostRepository {
  import opened Wrappers
  import opened Seqs
  import opened Entities
  import opened Store

  /** `CURRENT_TIMESTAMP - 1 DAY`, in milliseconds. */
  const OneDayMillis: int := 24 * 60 * 60 * 1000

  /** `WHERE p.parentPost IS NULL AND p.postType = 'TEXT_IMAGE'`. */
  predicate IsFeedCandidate(posts: map<Uuid, Post>, u: Uuid) {
    u in posts && posts[u].parent.None? && posts[u].postType == TEXT_IMAGE
  }

  /** The CASE that ranks 0: the author is followed by the viewer and the post is at most a day old. */
  predicate InPriorityBucket(posts: map<Uuid, Post>, follows: set<Follow>, viewer: Uuid, now: int, u: Uuid) {
    u in posts && Follow(viewer, posts[u].author) in follows && posts[u].createdAt >= now - OneDayMillis
  }

  /** The sort key `p.createdAt`. */
  function CreatedAtKey(posts: map<Uuid, Post>): (key: Uuid -> int)
    ensures forall u :: u in posts ==> key(u) == posts[u].createdAt
  {
    FieldKey(posts, (p: Post) => p.createdAt)
  }

  /**
   * `findFeedPostUuidsForUser` before paging: the candidates, newest first,
   * with the priority bucket moved ahead of the rest.
   */
  function FeedOrder(posts: map<Uuid, Post>, follows: set<Follow>, viewer: Uuid, now: int, rows: seq<Uuid>)
    : (r: seq<Uuid>)
    ensures forall u :: u in r <==> u in rows && IsFeedCandidate(posts, u)
  {
    var candidates := Filter(rows, u => IsFeedCandidate(posts, u));
    var sorted := SortDesc(candidates, CreatedAtKey(posts));
    var first := Filter(sorted, u => InPriorityBucket(posts, follows, viewer, now, u));
    var rest := Filter(sorted, u => !InPriorityBucket(posts, follows, viewer, now, u));
    FilterMembers(rows, u => IsFeedCandidate(posts, u));
    SortDescMembers(candidates, CreatedAtKey(posts));
    FilterMembers(sorted, u => InPriorityBucket(posts, follows, viewer, now, u));
    FilterMembers(sorted, u => !InPriorityBucket(posts, follows, viewer, now, u));
    first + rest
  }

  /** The feed is a reordering of the candidates: no candidate is lost or repeated. */
  lemma FeedIsPermutation(posts: map<Uuid, Post>, follows: set<Follow>, viewer: Uuid, now: int, rows: seq<Uuid>)
    ensures multiset(FeedOrder(posts, follows, viewer, now, rows)) == multiset(Filter(rows, u => IsFeedCandidate(posts, u)))
  {
    var candidates := Filter(rows, u => IsFeedCandidate(posts, u));
    var sorted := SortDesc(candidates, CreatedAtKey(posts));
    FilterPartition(sorted, u => InPriorityBucket(posts, follows, viewer, now, u),
                    u => !InPriorityBucket(posts, follows, viewer, now, u));
  }

  /** Every post of the priority bucket comes before every post outside it. */
  lemma FeedBucketRule(posts: map<Uuid, Post>, follows: set<Follow>, viewer: Uuid, now: int, rows: seq<Uuid>)
    ensures var r := FeedOrder(posts, follows, viewer, now, rows);
            forall i, j :: 0 <= i < j < |r| && InPriorityBucket(posts, follows, viewer, now, r[j]) ==>
              InPriorityBucket(posts, follows, viewer, now, r[i])
  {
    var sorted := SortDesc(Filter(rows, u => IsFeedCandidate(posts, u)), CreatedAtKey(posts));
    var pri := u => InPriorityBucket(posts, follows, viewer, now, u);
    FilterMembers(sorted, pri);
    FilterMembers(sorted, u => !InPriorityBucket(posts, follows, viewer, now, u));
    BucketsInOrder(Filter(sorted, pri), Filter(sorted, u => !InPriorityBucket(posts, follows, viewer, now, u)), pri);
  }

  /** Inside each bucket the posts are newest first. */
  lemma FeedNewestFirstWithinBucket(posts: map<Uuid, Post>, follows: set<Follow>, viewer: Uuid, now: int, rows: seq<Uuid>)
    ensures var r := FeedOrder(posts, follows, viewer, now, rows);
            forall i, j :: 0 <= i < j < |r| &&
                           InPriorityBucket(posts, follows, viewer, now, r[i]) == InPriorityBucket(posts, follows, viewer, now, r[j]) ==>
              r[i] in posts && r[j] in posts && posts[r[i]].createdAt >= posts[r[j]].createdAt
  {
    var r := FeedOrder(posts, follows, viewer, now, rows);
    var key := CreatedAtKey(posts);
    var sorted := SortDesc(Filter(rows, u => IsFeedCandidate(posts, u)), key);
    var pri := u => InPriorityBucket(posts, follows, viewer, now, u);
    var notPri := u => !InPriorityBucket(posts, follows, viewer, now, u);
    SortDescSorted(Filter(rows, u => IsFeedCandidate(posts, u)), key);
    FilterSorted(sorted, pri, key);
    FilterSorted(sorted, notPri, key);
    FilterMembers(sorted, pri);
    FilterMembers(sorted, notPri);
    BucketsSorted(Filter(sorted, pri), Filter(sorted, notPri), pri, key);
    forall i, j | 0 <= i < j < |r| &&
                  InPriorityBucket(posts, follows, viewer, now, r[i]) == InPriorityBucket(posts, follows, viewer, now, r[j])
      ensures r[i] in posts && r[j] in posts && posts[r[i]].createdAt >= posts[r[j]].createdAt
    {
      assert r[i] in r && r[j] in r;
    }
  }

  /**
   * The viewer's own posts get no special rank: nobody follows themselves,
   * so each of them comes after every post of the priority bucket.
   */
  lemma OwnPostsNotPromoted(posts: map<Uuid, Post>, users: map<Uuid, User>, follows: set<Follow>, viewer: Uuid,
                            now: int, rows: seq<Uuid>)
    requires FollowTable(follows, users)
    ensures var r := FeedOrder(posts, follows, viewer, now, rows);
            forall i, j :: (0 <= i < |r| && 0 <= j < |r| && InPriorityBucket(posts, follows, viewer, now, r[i]) &&
                            r[j] in posts && posts[r[j]].author == viewer) ==> i < j
  {
    var r := FeedOrder(posts, follows, viewer, now, rows);
    FeedBucketRule(posts, follows, viewer, now, rows);
    forall i, j | 0 <= i < |r| && 0 <= j < |r| && InPriorityBucket(posts, follows, viewer, now, r[i]) &&
                  r[j] in posts && posts[r[j]].author == viewer
      ensures i < j
    {
      assert r[j] in r;
      assert !InPriorityBucket(posts, follows, viewer, now, r[j]);
    }
  }

  /** `findFeedPostUuidsForUser(viewer, pageable)`: one page of the feed order. */
  function FindFeedPostUuidsForUser(posts: map<Uuid, Post>, follows: set<Follow>, viewer: Uuid, now: int,
                                    rows: seq<Uuid>, pageable: Pageable): (r: Page<Uuid>)
    requires pageable.size > 0
    ensures r.totalElements == |Filter(rows, u => IsFeedCandidate(posts, u))|
    ensures forall u :: u in r.content ==> u in rows && IsFeedCandidate(posts, u)
    ensures r == Paginate(FeedOrder(posts, follows, viewer, now, rows), pageable)
    ensures TakenFrom(r.content, FeedOrder(posts, follows, viewer, now, rows), pageable)
    ensures FeedRanked(posts, follows, viewer, now, r.content)
  {
    var all := FeedOrder(posts, follows, viewer, now, rows);
    FeedIsPermutation(posts, follows, viewer, now, rows);
    assert |all| == |multiset(all)|;
    FeedOrderRanked(posts, follows, viewer, now, rows);
    FeedPageRanked(posts, follows, viewer, now, all, pageable);
    Paginate(all, pageable)
  }

  /**
   * The ranking of the feed query, on any stretch of results: priority posts
   * first, and newest first among posts of the same bucket.
   */
  predicate FeedRanked(posts: map<Uuid, Post>, follows: set<Follow>, viewer: Uuid, now: int, s: seq<Uuid>) {
    && (forall i, j :: 0 <= i < j < |s| && InPriorityBucket(posts, follows, viewer, now, s[j]) ==>
          InPriorityBucket(posts, follows, viewer, now, s[i]))
    && (forall i, j :: 0 <= i < j < |s| &&
                       InPriorityBucket(posts, follows, viewer, now, s[i]) == InPriorityBucket(posts, follows, viewer, now, s[j]) ==>
          s[i] in posts && s[j] in posts && posts[s[i]].createdAt >= posts[s[j]].createdAt)
  }

  /** The whole feed order is ranked: the bucket rule and newest first within a bucket together. */
  lemma FeedOrderRanked(posts: map<Uuid, Post>, follows: set<Follow>, viewer: Uuid, now: int, rows: seq<Uuid>)
    ensures FeedRanked(posts, follows, viewer, now, FeedOrder(posts, follows, viewer, now, rows))
  {
    FeedBucketRule(posts, follows, viewer, now, rows);
    FeedNewestFirstWithinBucket(posts, follows, viewer, now, rows);
  }

  /** Every page of the feed order is ranked like the whole feed. */
  lemma FeedPageRanked(posts: map<Uuid, Post>, follows: set<Follow>, viewer: Uuid, now: int, feed: seq<Uuid>,
                       pageable: Pageable)
    requires pageable.size > 0
    requires FeedRanked(posts, follows, viewer, now, feed)
    ensures FeedRanked(posts, follows, viewer, now, Paginate(feed, pageable).content)
  {
    var pri := u => InPriorityBucket(posts, follows, viewer, now, u);
    PaginateKeepsOrder(feed, pageable, (a, b) => pri(b) ==> pri(a));
    PaginateKeepsOrder(feed, pageable, (a, b) => pri(a) == pri(b) ==>
                                         a in posts && b in posts && posts[a].createdAt >= posts[b].createdAt);
  }

  // ---------------------------------------------------------------------------
  // The other post queries

  /** The likes on post `u`. */
  function LikesOn(likes: set<Like>, u: Uuid): (s: set<Like>)
    ensures forall l :: l in s <==> l in likes && l.post == u
  {
    set l | l in likes && l.post == u
  }

  /**
   * `countLikesForPosts(posts)`: LEFT JOIN ... GROUP BY gives one row per
   * stored input post, counting its likes, zero included.
   */
  function CountLikesForPosts(posts: map<Uuid, Post>, likes: set<Like>, inputs: seq<Uuid>): (r: map<Uuid, nat>)
    ensures forall u :: u in r <==> u in inputs && u in posts
    ensures forall u :: u in r ==> r[u] == |LikesOn(likes, u)|
  {
    map u | u in inputs && u in posts :: |LikesOn(likes, u)|
  }

  /** A new like raises the count of its own post by one and leaves every other count as it was. */
  lemma NewLikeCountsOnce(posts: map<Uuid, Post>, likes: set<Like>, inputs: seq<Uuid>, l: Like, u: Uuid)
    requires l !in likes && u in inputs && u in posts
    ensures CountLikesForPosts(posts, likes + {l}, inputs)[u] ==
              CountLikesForPosts(posts, likes, inputs)[u] + (if l.post == u then 1 else 0)
  {
    if l.post == u {
      assert LikesOn(likes + {l}, u) == LikesOn(likes, u) + {l};
    } else {
      assert LikesOn(likes + {l}, u) == LikesOn(likes, u);
    }
  }

  /** `findByUuidIn(uuids)`: exactly the stored posts whose uuid is listed; no order. */
  function FindByUuidIn(posts: map<Uuid, Post>, uuids: seq<Uuid>): (r: set<Post>)
    requires PostsKeyed(posts)
    ensures forall p :: p in r <==> p.uuid in uuids && p.uuid in posts && posts[p.uuid] == p
  {
    set u | u in uuids && u in posts :: posts[u]
  }

  /** `findAllByParentPostIsNull`: the top-level posts, in scan order. */
  function FindAllByParentPostIsNull(posts: map<Uuid, Post>, rows: seq<Uuid>): (r: seq<Uuid>)
    ensures forall u :: u in r <==> u in rows && u in posts && posts[u].parent.None?
  {
    FilterMembers(rows, u => u in posts && posts[u].parent.None?);
    Filter(rows, u => u in posts && posts[u].parent.None?)
  }

  /** `getPostsByAuthor`: every post the author wrote, comments included (the query has no parent condition). */
  function GetPostsByAuthor(posts: map<Uuid, Post>, author: Uuid, rows: seq<Uuid>): (r: seq<Uuid>)
    ensures forall u :: u in r <==> u in rows && u in posts && posts[u].author == author
  {
    FilterMembers(rows, u => u in posts && posts[u].author == author);
    Filter(rows, u => u in posts && posts[u].author == author)
  }

  /** `findPostsByFollowing`: top-level posts whose author the given user follows. */
  function FindPostsByFollowing(posts: map<Uuid, Post>, follows: set<Follow>, viewer: Uuid, rows: seq<Uuid>)
    : (r: seq<Uuid>)
    ensures forall u :: u in r <==>
              u in rows && u in posts && posts[u].parent.None? && Follow(viewer, posts[u].author) in follows
  {
    FilterMembers(rows, u => u in posts && posts[u].parent.None? && Follow(viewer, posts[u].author) in follows);
    Filter(rows, u => u in posts && posts[u].parent.None? && Follow(viewer, posts[u].author) in follows)
  }

  /** The following feed is part of the top-level listing, and never shows the viewer's own posts. */
  lemma FollowingPostsAreTopLevel(posts: map<Uuid, Post>, users: map<Uuid, User>, follows: set<Follow>,
                                  viewer: Uuid, rows: seq<Uuid>)
    requires FollowTable(follows, users)
    ensures forall u :: u in FindPostsByFollowing(posts, follows, viewer, rows) ==>
              u in FindAllByParentPostIsNull(posts, rows) && posts[u].author != viewer
  {
  }

  /** `findAllByPostType(t)`: the posts of that type, comments included. */
  function FindAllByPostType(posts: map<Uuid, Post>, t: PostType, rows: seq<Uuid>): (r: seq<Uuid>)
    ensures forall u :: u in r <==> u in rows && u in posts && posts[u].postType == t
  {
    FilterMembers(rows, u => u in posts && posts[u].postType == t);
    Filter(rows, u => u in posts && posts[u].postType == t)
  }
}
