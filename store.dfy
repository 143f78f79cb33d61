/**
 * The database: one table per entity, the invariants the schema and the
 * services keep (keys, unique constraints, foreign keys, the comment tree),
 * and the entity helpers that keep both sides of a relationship in step
 * (`Post.addComment`, `Post.removeComment`, `User.setUserProfile`).
 */
module Store {
  import opened Wrappers
  import opened Seqs
  import opened Entities

  // ---------------------------------------------------------------------------
  // The comment tree

  /** Every parent is stored and was saved earlier (smaller IDENTITY id). */
  ghost predicate ParentsBefore(posts: map<Uuid, Post>) {
    forall u {:trigger posts[u].parent} :: u in posts && posts[u].parent.Some? ==>
      posts[u].parent.value in posts && posts[posts[u].parent.value].id < posts[u].id
  }

  /** Every comment is listed in its parent's `comments` (the parent side of the link). */
  ghost predicate ChildrenListed(posts: map<Uuid, Post>) {
    forall u {:trigger posts[u].parent} :: u in posts && posts[u].parent.Some? && posts[u].parent.value in posts ==>
      u in posts[posts[u].parent.value].comments
  }

  /** Every listed comment is stored, listed once, and points back to the post listing it. */
  ghost predicate CommentsPointBack(posts: map<Uuid, Post>) {
    forall u {:trigger posts[u].comments} :: u in posts ==>
      NoDups(posts[u].comments) && forall c :: c in posts[u].comments ==> c in posts && posts[c].parent == Some(u)
  }

  /** Parent pointers and comment lists describe the same forest. */
  ghost predicate PostTree(posts: map<Uuid, Post>) {
    PostsKeyed(posts) && ParentsBefore(posts) && ChildrenListed(posts) && CommentsPointBack(posts)
  }

  /** `u` is `root` or a comment below it, following parent pointers upwards. */
  predicate Descends(posts: map<Uuid, Post>, u: Uuid, root: Uuid)
    requires ParentsBefore(posts) && u in posts
    decreases posts[u].id
  {
    u == root || (posts[u].parent.Some? && Descends(posts, posts[u].parent.value, root))
  }

  /** `root` and all its comments, at any depth. */
  function Subtree(posts: map<Uuid, Post>, root: Uuid): (s: set<Uuid>)
    requires ParentsBefore(posts)
    ensures s <= posts.Keys
    ensures root in posts ==> root in s
  {
    set u | u in posts.Keys && Descends(posts, u, root)
  }

  /** The subtree is closed under the `comments` lists: cascading along them stays inside it. */
  lemma SubtreeClosedUnderComments(posts: map<Uuid, Post>, root: Uuid, u: Uuid, c: Uuid)
    requires PostTree(posts) && u in Subtree(posts, root) && c in posts[u].comments
    ensures c in Subtree(posts, root)
  {
    assert posts[c].parent == Some(u);
  }

  /** Every post of the subtree but the root is listed by a parent inside it: the subtree is what the cascade reaches. */
  lemma SubtreeReachedByComments(posts: map<Uuid, Post>, root: Uuid, u: Uuid)
    requires PostTree(posts) && u in Subtree(posts, root) && u != root
    ensures posts[u].parent.Some? && posts[u].parent.value in Subtree(posts, root)
    ensures u in posts[posts[u].parent.value].comments
  {
  }

  /** `list.remove(x)` after the removal of every earlier copy: all occurrences of `x` go. */
  function Without(s: seq<Uuid>, x: Uuid): (r: seq<Uuid>)
    ensures forall y :: y in r <==> y in s && y != x
  {
    FilterMembers(s, y => y != x);
    Filter(s, y => y != x)
  }

  /**
   * The tables after `delete(root)` with cascade ALL and orphan removal on
   * `comments`: the subtree is gone and the root no longer appears in its
   * parent's list.
   */
  function DeleteSubtree(posts: map<Uuid, Post>, root: Uuid): (r: map<Uuid, Post>)
    requires ParentsBefore(posts) && root in posts
    ensures r.Keys == posts.Keys - Subtree(posts, root)
    ensures forall u :: u in r ==> r[u] == posts[u].(comments := Without(posts[u].comments, root))
  {
    map u | u in posts.Keys && !Descends(posts, u, root) :: posts[u].(comments := Without(posts[u].comments, root))
  }

  /** Deleting a subtree leaves a consistent forest: no remaining post points to a deleted one. */
  lemma DeleteKeepsTree(posts: map<Uuid, Post>, root: Uuid)
    requires PostTree(posts) && root in posts
    ensures PostTree(DeleteSubtree(posts, root))
  {
    var r := DeleteSubtree(posts, root);
    forall u | u in r && r[u].parent.Some?
      ensures r[u].parent.value in r && r[r[u].parent.value].id < r[u].id
      ensures u in r[r[u].parent.value].comments
    {
      var p := posts[u].parent.value;
      assert !Descends(posts, p, root);
      assert u in posts[p].comments;
    }
    forall u | u in r
      ensures NoDups(r[u].comments)
      ensures forall c :: c in r[u].comments ==> c in r && r[c].parent == Some(u)
    {
      FilterNoDups(posts[u].comments, y => y != root);
      forall c | c in r[u].comments ensures c in r && r[c].parent == Some(u) {
        assert c in posts[u].comments && c != root;
        assert posts[c].parent == Some(u);
        assert !Descends(posts, c, root);
      }
    }
  }

  // ---------------------------------------------------------------------------
  // Post.addComment / Post.removeComment as table updates

  /** `posts` with the parent's comment list replaced by `list` and the comment's parent by `link`. */
  function Relinked(posts: map<Uuid, Post>, parent: Uuid, list: seq<Uuid>, comment: Uuid, link: Option<Uuid>): (r: map<Uuid, Post>)
    requires parent in posts && comment in posts
    ensures r.Keys == posts.Keys
    ensures forall u :: u in r ==> r[u].(comments := posts[u].comments, parent := posts[u].parent) == posts[u]
  {
    var withList := posts[parent := posts[parent].(comments := list)];
    withList[comment := withList[comment].(parent := link)]
  }

  /** `parent.addComment(comment)`: append to the parent's list, then point the comment at the parent. */
  function AddCommentLinks(posts: map<Uuid, Post>, parent: Uuid, comment: Uuid): (r: map<Uuid, Post>)
    requires parent in posts && comment in posts
    ensures r.Keys == posts.Keys
    ensures forall u :: u in r ==> r[u].(comments := posts[u].comments, parent := posts[u].parent) == posts[u]
  {
    var withChild := posts[parent := posts[parent].(comments := posts[parent].comments + [comment])];
    withChild[comment := withChild[comment].(parent := Some(parent))]
  }

  /**
   * For a comment with no parent yet, saved after the parent, `addComment`
   * keeps the forest consistent: the comment ends the parent's list and
   * points to it.
   */
  lemma AddCommentKeepsTree(posts: map<Uuid, Post>, parent: Uuid, comment: Uuid)
    requires PostTree(posts) && parent in posts && comment in posts
    requires posts[comment].parent.None? && posts[parent].id < posts[comment].id
    ensures PostTree(AddCommentLinks(posts, parent, comment))
    ensures AddCommentLinks(posts, parent, comment)[parent].comments == posts[parent].comments + [comment]
    ensures AddCommentLinks(posts, parent, comment)[comment].parent == Some(parent)
  {
    var r := AddCommentLinks(posts, parent, comment);
    assert comment != parent;
    assert PostsKeyed(r) by {
      forall u | u in r ensures r[u].uuid == u {
        assert r[u].uuid == posts[u].uuid;
      }
    }
    assert ParentsBefore(r) by {
      forall u | u in r && r[u].parent.Some? ensures r[u].parent.value in r && r[r[u].parent.value].id < r[u].id {
        if u != comment {
          assert r[u].parent == posts[u].parent;
          assert r[r[u].parent.value].id == posts[posts[u].parent.value].id;
        }
      }
    }
    AddCommentKeepsChildrenListed(posts, parent, comment);
    AddCommentKeepsCommentsPointBack(posts, parent, comment);
  }

  lemma AddCommentKeepsChildrenListed(posts: map<Uuid, Post>, parent: Uuid, comment: Uuid)
    requires PostTree(posts) && parent in posts && comment in posts
    requires posts[comment].parent.None? && comment != parent
    ensures ChildrenListed(AddCommentLinks(posts, parent, comment))
  {
    var r := AddCommentLinks(posts, parent, comment);
    forall u | u in r && r[u].parent.Some? && r[u].parent.value in r ensures u in r[r[u].parent.value].comments {
      if u != comment {
        var q := posts[u].parent.value;
        assert u in posts[q].comments;
        assert forall c :: c in posts[q].comments ==> c in r[q].comments;
      }
    }
  }

  lemma AddCommentKeepsCommentsPointBack(posts: map<Uuid, Post>, parent: Uuid, comment: Uuid)
    requires PostTree(posts) && parent in posts && comment in posts
    requires posts[comment].parent.None? && comment != parent
    ensures CommentsPointBack(AddCommentLinks(posts, parent, comment))
  {
    var r := AddCommentLinks(posts, parent, comment);
    assert comment !in posts[parent].comments;
    var s := posts[parent].comments + [comment];
    assert NoDups(s) by {
      forall i, j | 0 <= i < j < |s| ensures s[i] != s[j] {
        if j == |s| - 1 { assert s[i] in posts[parent].comments; }
      }
    }
    forall u | u in r ensures NoDups(r[u].comments) && forall c :: c in r[u].comments ==> c in r && r[c].parent == Some(u) {
      forall c | c in r[u].comments ensures r[c].parent == Some(u) {
        if u != parent {
          assert c in posts[u].comments;
          assert c != comment;
        }
      }
    }
  }

  /**
   * `addComment` does not detach the comment from a previous parent: that
   * parent still lists it, so the forest is no longer consistent.
   */
  lemma AddCommentKeepsOldParentList(posts: map<Uuid, Post>, parent: Uuid, comment: Uuid)
    requires PostTree(posts) && parent in posts && comment in posts
    requires posts[comment].parent.Some? && posts[comment].parent.value != parent
    ensures comment in AddCommentLinks(posts, parent, comment)[posts[comment].parent.value].comments
    ensures !PostTree(AddCommentLinks(posts, parent, comment))
  {
    var q := posts[comment].parent.value;
    var r := AddCommentLinks(posts, parent, comment);
    assert r[q] == posts[q];
    assert comment in r[q].comments && r[comment].parent != Some(q);
  }

  /** `comments.remove(c)`: drops the first element equal to `c`. */
  function RemoveFirst(s: seq<Uuid>, x: Uuid): (r: seq<Uuid>)
    ensures x !in s ==> r == s
    ensures x in s ==> |r| == |s| - 1
    ensures multiset(r) == multiset(s) - multiset{x}
  {
    if s == [] then []
    else if s[0] == x then
      assert s == [s[0]] + s[1..];
      s[1..]
    else
      assert s == [s[0]] + s[1..];
      [s[0]] + RemoveFirst(s[1..], x)
  }

  /** `parent.removeComment(comment)`: remove from the parent's list, then clear the comment's parent. */
  function RemoveCommentLinks(posts: map<Uuid, Post>, parent: Uuid, comment: Uuid): (r: map<Uuid, Post>)
    requires parent in posts && comment in posts
    ensures r.Keys == posts.Keys
    ensures forall u :: u in r ==> r[u].(comments := posts[u].comments, parent := posts[u].parent) == posts[u]
  {
    Relinked(posts, parent, RemoveFirst(posts[parent].comments, comment), comment, None)
  }

  /**
   * Removing a listed comment unlinks both sides and keeps the forest
   * consistent; the comment becomes a top-level post with its own subtree.
   */
  lemma RemoveCommentKeepsTree(posts: map<Uuid, Post>, parent: Uuid, comment: Uuid)
    requires PostTree(posts) && parent in posts && comment in posts[parent].comments
    ensures comment in posts
    ensures PostTree(RemoveCommentLinks(posts, parent, comment))
    ensures comment !in RemoveCommentLinks(posts, parent, comment)[parent].comments
    ensures RemoveCommentLinks(posts, parent, comment)[comment].parent.None?
  {
    var r := RemoveCommentLinks(posts, parent, comment);
    var list := posts[parent].comments;
    RemoveFirstOfNoDups(list, comment);
    assert posts[comment].parent == Some(parent);
    forall u | u in r && r[u].parent.Some?
      ensures r[u].parent.value in r && r[r[u].parent.value].id < r[u].id
      ensures u in r[r[u].parent.value].comments
    {
      assert u != comment && r[u].parent == posts[u].parent;
      assert u in posts[posts[u].parent.value].comments;
    }
    forall u | u in r
      ensures NoDups(r[u].comments)
      ensures forall c :: c in r[u].comments ==> c in r && r[c].parent == Some(u)
    {
      if u != parent {
        assert r[u].comments == posts[u].comments;
        forall c | c in r[u].comments ensures r[c].parent == Some(u) {
          assert posts[c].parent == Some(u);
        }
      }
    }
  }

  /** In a duplicate-free list, removing the first copy of `x` removes `x` and keeps everything else. */
  lemma RemoveFirstOfNoDups(s: seq<Uuid>, x: Uuid)
    requires NoDups(s)
    ensures NoDups(RemoveFirst(s, x))
    ensures forall y :: y in RemoveFirst(s, x) <==> y in s && y != x
  {
    var r := RemoveFirst(s, x);
    NoDupsMultiset(s);
    NoDupsMultiset(r);
    forall y ensures y in r <==> y in s && y != x {
      assert y in r <==> y in multiset(r);
      assert y in s <==> y in multiset(s);
    }
  }

  // ---------------------------------------------------------------------------
  // The user table and User.setUserProfile

  /** A user's profile is stored and points back to that user. */
  ghost predicate ProfilesLinked(users: map<Uuid, User>, profiles: map<ProfileRef, Profile>) {
    forall u :: u in users && users[u].profile.Some? ==>
      users[u].profile.value in profiles && profiles[users[u].profile.value].user == Some(u)
  }

  ghost predicate UserTable(users: map<Uuid, User>, profiles: map<ProfileRef, Profile>) {
    UsersKeyed(users) && UniqueUserColumns(users) && ProfilesLinked(users, profiles)
  }

  /** Two users never share a profile. */
  lemma ProfilesNotShared(users: map<Uuid, User>, profiles: map<ProfileRef, Profile>, a: Uuid, b: Uuid)
    requires ProfilesLinked(users, profiles) && a in users && b in users
    requires users[a].profile.Some? && users[a].profile == users[b].profile
    ensures a == b
  {
  }

  datatype UserTables = UserTables(users: map<Uuid, User>, profiles: map<ProfileRef, Profile>)

  /**
   * `user.setUserProfile(p)`: a non-null profile is pointed at the user; a
   * null one first clears the back-reference of the profile it replaces.
   */
  function SetProfileLinks(users: map<Uuid, User>, profiles: map<ProfileRef, Profile>, u: Uuid, p: Option<ProfileRef>)
    : (r: UserTables)
    requires u in users && (p.Some? ==> p.value in profiles)
    ensures r.users == users[u := users[u].(profile := p)]
    ensures p.Some? ==> r.profiles == profiles[p.value := profiles[p.value].(user := Some(u))]
    ensures p.None? && users[u].profile.Some? && users[u].profile.value in profiles ==>
              r.profiles == profiles[users[u].profile.value := profiles[users[u].profile.value].(user := None)]
    ensures p.None? && (users[u].profile.None? || users[u].profile.value !in profiles) ==> r.profiles == profiles
  {
    var profiles' :=
      if p.None? then
        (if users[u].profile.Some? && users[u].profile.value in profiles
         then profiles[users[u].profile.value := profiles[users[u].profile.value].(user := None)]
         else profiles)
      else profiles[p.value := profiles[p.value].(user := Some(u))];
    UserTables(users[u := users[u].(profile := p)], profiles')
  }

  /**
   * Linking a profile that no other user holds keeps every user's link
   * consistent, and the new link holds in both directions.
   */
  lemma SetProfileKeepsLinks(users: map<Uuid, User>, profiles: map<ProfileRef, Profile>, u: Uuid, p: ProfileRef)
    requires ProfilesLinked(users, profiles) && u in users && p in profiles
    requires profiles[p].user.None? || profiles[p].user == Some(u)
    ensures ProfilesLinked(SetProfileLinks(users, profiles, u, Some(p)).users, SetProfileLinks(users, profiles, u, Some(p)).profiles)
  {
    var r := SetProfileLinks(users, profiles, u, Some(p));
    forall v | v in r.users && r.users[v].profile.Some?
      ensures r.users[v].profile.value in r.profiles && r.profiles[r.users[v].profile.value].user == Some(v)
    {
      if v != u {
        assert users[v].profile.value != p;
      }
    }
  }

  /**
   * Replacing a profile by another non-null one leaves the old profile
   * pointing at the user: only the null argument clears a back-reference.
   */
  lemma ReplacingKeepsOldBackReference(users: map<Uuid, User>, profiles: map<ProfileRef, Profile>, u: Uuid, p: ProfileRef)
    requires ProfilesLinked(users, profiles) && u in users && p in profiles
    requires users[u].profile.Some? && users[u].profile.value != p
    ensures SetProfileLinks(users, profiles, u, Some(p)).profiles[users[u].profile.value].user == Some(u)
  {
  }

  /** Clearing the profile clears the back-reference of the profile that was linked. */
  lemma ClearingUnlinks(users: map<Uuid, User>, profiles: map<ProfileRef, Profile>, u: Uuid)
    requires ProfilesLinked(users, profiles) && u in users && users[u].profile.Some?
    ensures SetProfileLinks(users, profiles, u, None).profiles[users[u].profile.value].user.None?
    ensures SetProfileLinks(users, profiles, u, None).users[u].profile.None?
  {
  }

  // ---------------------------------------------------------------------------
  // The other tables

  ghost predicate AuthorsStored(posts: map<Uuid, Post>, users: map<Uuid, User>) {
    forall u :: u in posts ==> posts[u].author in users
  }

  ghost predicate PostIdsBelow(posts: map<Uuid, Post>, next: nat) {
    forall u :: u in posts ==> posts[u].id < next
  }

  /** Follow rows reference stored users and never pair a user with themselves. */
  ghost predicate FollowTable(follows: set<Follow>, users: map<Uuid, User>) {
    forall f :: f in follows ==> f.follower in users && f.followee in users && f.follower != f.followee
  }

  ghost predicate LikeTable(likes: set<Like>, users: map<Uuid, User>, posts: map<Uuid, Post>) {
    forall l :: l in likes ==> l.user in users && l.post in posts
  }

  ghost predicate NotificationTable(notifications: map<nat, Notification>, users: map<Uuid, User>, next: nat) {
    forall id :: id in notifications ==>
      && notifications[id].id == id && id < next
      && notifications[id].recipient in users
      && (notifications[id].sender.Some? ==> notifications[id].sender.value in users)
  }

  /** The invariants of every table together, stated over the table contents. */
  ghost predicate Tables(posts: map<Uuid, Post>, users: map<Uuid, User>, profiles: map<ProfileRef, Profile>,
                         follows: set<Follow>, likes: set<Like>, notifications: map<nat, Notification>,
                         nextPostId: nat, nextNotificationId: nat) {
    && PostTree(posts) && PostIdsBelow(posts, nextPostId) && AuthorsStored(posts, users)
    && UserTable(users, profiles)
    && FollowTable(follows, users)
    && LikeTable(likes, users, posts)
    && NotificationTable(notifications, users, nextNotificationId)
    && posts.Keys !! users.Keys      // random UUIDs: a post and a user never share one
  }

  /**
   * Changing only the user and profile tables keeps every invariant when
   * no user row disappears, the new user table is consistent and no new
   * user key collides with a post key.
   */
  lemma UserRowsKeepTables(posts: map<Uuid, Post>, users: map<Uuid, User>, profiles: map<ProfileRef, Profile>,
                           follows: set<Follow>, likes: set<Like>, notifications: map<nat, Notification>,
                           nextPostId: nat, nextNotificationId: nat,
                           users': map<Uuid, User>, profiles': map<ProfileRef, Profile>)
    requires Tables(posts, users, profiles, follows, likes, notifications, nextPostId, nextNotificationId)
    requires users.Keys <= users'.Keys && posts.Keys !! users'.Keys && UserTable(users', profiles')
    ensures Tables(posts, users', profiles', follows, likes, notifications, nextPostId, nextNotificationId)
  {
  }

  class Database {
    var posts: map<Uuid, Post>
    var users: map<Uuid, User>
    var profiles: map<ProfileRef, Profile>
    var follows: set<Follow>
    var likes: set<Like>
    var notifications: map<nat, Notification>
    var nextPostId: nat
    var nextNotificationId: nat

    ghost predicate Valid()
      reads this
    {
      Tables(posts, users, profiles, follows, likes, notifications, nextPostId, nextNotificationId)
    }

    constructor ()
      ensures Valid()
      ensures posts == map[] && users == map[] && profiles == map[]
      ensures follows == {} && likes == {} && notifications == map[]
    {
      posts, users, profiles := map[], map[], map[];
      follows, likes, notifications := {}, {}, map[];
      nextPostId, nextNotificationId := 0, 0;
    }

    /** `Post.addComment`: the parent's list gains the comment, then the comment points at the parent. */
    method AddComment(parent: Uuid, comment: Uuid)
      requires parent in posts && comment in posts
      modifies this`posts
      ensures posts == AddCommentLinks(old(posts), parent, comment)
    {
      posts := posts[parent := posts[parent].(comments := posts[parent].comments + [comment])];
      posts := posts[comment := posts[comment].(parent := Some(parent))];
    }

    /** `Post.removeComment`: the first equal element leaves the parent's list, then the comment's parent is cleared. */
    method RemoveComment(parent: Uuid, comment: Uuid)
      requires parent in posts && comment in posts
      modifies this`posts
      ensures posts == RemoveCommentLinks(old(posts), parent, comment)
    {
      posts := posts[parent := posts[parent].(comments := RemoveFirst(posts[parent].comments, comment))];
      posts := posts[comment := posts[comment].(parent := None)];
    }

    /** `User.setUserProfile`. */
    method SetUserProfile(u: Uuid, p: Option<ProfileRef>)
      requires u in users && (p.Some? ==> p.value in profiles)
      modifies this`users, this`profiles
      ensures UserTables(users, profiles) == SetProfileLinks(old(users), old(profiles), u, p)
    {
      if p.None? {
        var current := users[u].profile;
        if current.Some? && current.value in profiles {
          profiles := profiles[current.value := profiles[current.value].(user := None)];
        }
      } else {
        profiles := profiles[p.value := profiles[p.value].(user := Some(u))];
      }
      users := users[u := users[u].(profile := p)];
    }
  }
}
