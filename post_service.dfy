/**
 * PostServiceImpl: creating posts and comments, listing and fetching posts,
 * author-only deletion, and the bounded-depth mapping of a post and its
 * comments into the response tree.
 */
module PostService {
  import opened Wrappers
  import opened Seqs
  import opened Entities
  import opened Store
  import UserRepository

  const NotAuthorizedToDelete: string := "You are not authorized to delete this post"

  /**
   * The PostResponseDTO fields the mapping sets; `comments` stays null
   * (None) unless nested comments are rendered.
   */
  datatype PostResponse = PostResponse(
    postUuid: Uuid,
    content: string,
    imageUrls: seq<string>,
    createdAt: int,
    updatedAt: int,
    authorUsername: string,
    authorUuid: Uuid,
    parentPostUuid: Option<Uuid>,
    comments: Option<seq<PostResponse>>,
    commentCount: nat)

  /** The response nests comments at most `d` levels deep. */
  predicate DepthAtMost(r: PostResponse, d: nat)
    decreases d
  {
    r.comments.None? || (d > 0 && forall c | c in r.comments.value :: DepthAtMost(c, d - 1))
  }

  /** What the mapping needs of the tables: a consistent comment forest whose authors are stored. */
  ghost predicate Renderable(posts: map<Uuid, Post>, users: map<Uuid, User>) {
    PostTree(posts) && AuthorsStored(posts, users)
  }

  /** `mapPostToResponseDTO(post, depth)` for a stored post. */
  function Render(posts: map<Uuid, Post>, users: map<Uuid, User>, u: Uuid, depth: nat): (r: PostResponse)
    requires Renderable(posts, users) && u in posts
    decreases depth, 0
    ensures r.postUuid == u && r.content == posts[u].content && r.imageUrls == posts[u].imageUrls
    ensures r.createdAt == posts[u].createdAt && r.updatedAt == posts[u].updatedAt
    ensures r.authorUuid == posts[u].author && r.authorUsername == users[posts[u].author].username
    ensures r.parentPostUuid == posts[u].parent
    ensures r.commentCount == |posts[u].comments|
    ensures r.comments.Some? <==> depth > 0 && posts[u].comments != []
    ensures r.comments.Some? ==>
              |r.comments.value| == |posts[u].comments| &&
              forall i :: 0 <= i < |r.comments.value| ==> r.comments.value[i].postUuid == posts[u].comments[i]
    ensures DepthAtMost(r, depth)
  {
    var p := posts[u];
    var nested := if depth > 0 && p.comments != [] then Some(RenderAll(posts, users, p.comments, depth - 1)) else None;
    PostResponse(p.uuid, p.content, p.imageUrls, p.createdAt, p.updatedAt,
                 users[p.author].username, p.author, p.parent, nested, |p.comments|)
  }

  /** The comment list mapped element by element. */
  function RenderAll(posts: map<Uuid, Post>, users: map<Uuid, User>, cs: seq<Uuid>, depth: nat): (rs: seq<PostResponse>)
    requires Renderable(posts, users) && forall c :: c in cs ==> c in posts
    decreases depth, |cs|
    ensures |rs| == |cs|
    ensures forall i :: 0 <= i < |rs| ==> rs[i].postUuid == cs[i] && DepthAtMost(rs[i], depth)
    ensures forall i :: 0 <= i < |rs| ==> rs[i] == Render(posts, users, cs[i], depth)
  {
    if cs == [] then [] else [Render(posts, users, cs[0], depth)] + RenderAll(posts, users, cs[1..], depth)
  }

  /** `mapPostToResponseDTO`: null for null. */
  function MapPostToResponseDTO(posts: map<Uuid, Post>, users: map<Uuid, User>, post: Option<Uuid>, depth: nat)
    : (r: Option<PostResponse>)
    requires Renderable(posts, users) && (post.Some? ==> post.value in posts)
    ensures r.None? <==> post.None?
    ensures r.Some? ==> r.value.postUuid == post.value && DepthAtMost(r.value, depth)
  {
    if post.None? then None else Some(Render(posts, users, post.value, depth))
  }

  /** At depth 1 the direct comments are shown, each with its count but without its own comments. */
  lemma DepthOneShowsDirectCommentsOnly(posts: map<Uuid, Post>, users: map<Uuid, User>, u: Uuid)
    requires Renderable(posts, users) && u in posts
    ensures var r := Render(posts, users, u, 1);
            r.comments.Some? ==>
              forall i :: 0 <= i < |r.comments.value| ==>
                r.comments.value[i].comments.None? &&
                r.comments.value[i].commentCount == |posts[posts[u].comments[i]].comments|
  {
    var r := Render(posts, users, u, 1);
    if r.comments.Some? {
      forall i | 0 <= i < |r.comments.value|
        ensures r.comments.value[i].comments.None?
        ensures r.comments.value[i].commentCount == |posts[posts[u].comments[i]].comments|
      {
        assert posts[u].comments[i] in posts[u].comments;
        assert r.comments.value[i] == Render(posts, users, posts[u].comments[i], 0);
      }
    }
  }

  /** `getPostByUuid`: the post rendered with its direct comments, or ResourceNotFoundException. */
  function GetPostByUuid(posts: map<Uuid, Post>, users: map<Uuid, User>, u: Uuid): (r: Result<PostResponse, ServiceError>)
    requires Renderable(posts, users)
    ensures r.Failure? <==> u !in posts
    ensures r.Failure? ==> r.error == ResourceNotFound
    ensures r.Success? ==> r.value == Render(posts, users, u, 1)
    ensures r.Success? ==> r.value.postUuid == u && r.value.commentCount == |posts[u].comments| && DepthAtMost(r.value, 1)
  {
    if u in posts then Success(Render(posts, users, u, 1)) else Failure(ResourceNotFound)
  }

  /** A new row with no parent and no comments keeps the forest consistent. */
  lemma InsertPostKeepsTree(posts: map<Uuid, Post>, u: Uuid, p: Post)
    requires PostTree(posts) && u !in posts && p.uuid == u && p.parent.None? && p.comments == []
    ensures PostTree(posts[u := p])
  {
    var r := posts[u := p];
    forall v | v in r ensures forall c :: c in r[v].comments ==> c in r && r[c].parent == Some(v) {
      if v != u {
        forall c | c in r[v].comments ensures r[c].parent == Some(v) {
          assert c in posts;
        }
      }
    }
  }

  /** The row `createPost` saves: the entity defaults, the request's content, and its image list when non-null. */
  function NewPostRow(uuid: Uuid, id: nat, author: Uuid, content: string, imageUrls: Option<seq<string>>, now: int)
    : (p: Post)
    ensures p.imageUrls == (if imageUrls.Some? then imageUrls.value else [])
    ensures p.(imageUrls := []) == NewPost(uuid, id, author, content, now)
  {
    var p := NewPost(uuid, id, author, content, now);
    if imageUrls.Some? then p.(imageUrls := imageUrls.value) else p
  }

  /** The row `addCommentToPost` saves: as above, but an empty image list counts as absent. */
  function NewCommentRow(uuid: Uuid, id: nat, author: Uuid, content: string, imageUrls: Option<seq<string>>, now: int)
    : (p: Post)
    ensures p.imageUrls == (if imageUrls.Some? && imageUrls.value != [] then imageUrls.value else [])
    ensures p.(imageUrls := []) == NewPost(uuid, id, author, content, now)
  {
    var p := NewPost(uuid, id, author, content, now);
    if imageUrls.Some? && imageUrls.value != [] then p.(imageUrls := imageUrls.value) else p
  }

  /**
   * `createPost`: the caller's user row is the author; the post is
   * top-level and is returned without nested comments. `uuid` is the
   * random UUID the entity draws, `now` the save time.
   */
  method CreatePost(db: Database, username: string, content: string, imageUrls: Option<seq<string>>, uuid: Uuid, now: int)
    returns (r: Result<PostResponse, ServiceError>)
    requires db.Valid() && uuid !in db.posts && uuid !in db.users
    modifies db`posts, db`nextPostId
    ensures db.Valid()
    ensures UserRepository.FindByUsername(db.users, username).None? ==>
              r == Failure(UsernameNotFound) && db.posts == old(db.posts) && db.nextPostId == old(db.nextPostId)
    ensures UserRepository.FindByUsername(db.users, username).Some? ==>
              && db.posts == old(db.posts)[uuid := NewPostRow(uuid, old(db.nextPostId),
                                  UserRepository.FindByUsername(db.users, username).value, content, imageUrls, now)]
              && db.nextPostId == old(db.nextPostId) + 1
              && r == Success(Render(db.posts, db.users, uuid, 0))
    ensures r.Success? ==> r.value.parentPostUuid.None? && r.value.comments.None? && r.value.commentCount == 0
  {
    var author := UserRepository.FindByUsername(db.users, username);
    if author.None? {
      return Failure(UsernameNotFound);
    }
    var p := NewPostRow(uuid, db.nextPostId, author.value, content, imageUrls, now);
    InsertPostKeepsTree(db.posts, uuid, p);
    db.posts := db.posts[uuid := p];
    db.nextPostId := db.nextPostId + 1;
    r := Success(Render(db.posts, db.users, uuid, 0));
  }

  /**
   * `addCommentToPost`: a new post by the caller, appended to the parent's
   * comments and pointing back at it; returned without nested comments.
   */
  method AddCommentToPost(db: Database, parentUuid: Uuid, username: string, content: string,
                          imageUrls: Option<seq<string>>, uuid: Uuid, now: int)
    returns (r: Result<PostResponse, ServiceError>)
    requires db.Valid() && uuid !in db.posts && uuid !in db.users
    modifies db`posts, db`nextPostId
    ensures db.Valid()
    ensures UserRepository.FindByUsername(db.users, username).None? ==>
              r == Failure(UsernameNotFound) && db.posts == old(db.posts) && db.nextPostId == old(db.nextPostId)
    ensures UserRepository.FindByUsername(db.users, username).Some? && parentUuid !in old(db.posts) ==>
              r == Failure(ResourceNotFound) && db.posts == old(db.posts) && db.nextPostId == old(db.nextPostId)
    ensures UserRepository.FindByUsername(db.users, username).Some? && parentUuid in old(db.posts) ==>
              && db.posts == AddCommentLinks(old(db.posts)[uuid := NewCommentRow(uuid, old(db.nextPostId),
                                UserRepository.FindByUsername(db.users, username).value, content, imageUrls, now)],
                                parentUuid, uuid)
              && db.nextPostId == old(db.nextPostId) + 1
              && r == Success(Render(db.posts, db.users, uuid, 0))
    ensures r.Success? ==>
              && db.posts[parentUuid].comments == old(db.posts)[parentUuid].comments + [uuid]
              && db.posts[uuid].parent == Some(parentUuid)
              && db.users[db.posts[uuid].author].username == username
  {
    var author := UserRepository.FindByUsername(db.users, username);
    if author.None? {
      return Failure(UsernameNotFound);
    }
    if parentUuid !in db.posts {
      return Failure(ResourceNotFound);
    }
    var c := NewCommentRow(uuid, db.nextPostId, author.value, content, imageUrls, now);
    SaveComment(db, parentUuid, c);
    r := Success(Render(db.posts, db.users, uuid, 0));
  }

  /** `postRepository.save(comment)` followed by `parentPost.addComment(comment)`. */
  method SaveComment(db: Database, parent: Uuid, c: Post)
    requires db.Valid() && parent in db.posts && c.uuid !in db.posts && c.uuid !in db.users
    requires c.parent.None? && c.comments == [] && c.id == db.nextPostId && c.author in db.users
    modifies db`posts, db`nextPostId
    ensures db.Valid()
    ensures db.posts == AddCommentLinks(old(db.posts)[c.uuid := c], parent, c.uuid)
    ensures db.nextPostId == old(db.nextPostId) + 1
    ensures db.posts[parent].comments == old(db.posts)[parent].comments + [c.uuid]
    ensures db.posts[c.uuid].parent == Some(parent) && db.posts[c.uuid].author == c.author
  {
    ghost var others := (db.users, db.profiles, db.follows, db.likes, db.notifications, db.nextNotificationId);
    CommentRowKeepsTables(db.posts, db.users, db.likes, db.nextPostId, parent, c);
    db.posts := db.posts[c.uuid := c];
    db.nextPostId := db.nextPostId + 1;
    db.AddComment(parent, c.uuid);
    assert others == (db.users, db.profiles, db.follows, db.likes, db.notifications, db.nextNotificationId);
  }

  /** Saving a new comment row and linking it to a stored parent keeps every table invariant on posts. */
  lemma CommentRowKeepsTables(posts: map<Uuid, Post>, users: map<Uuid, User>, likes: set<Like>, next: nat,
                              parent: Uuid, c: Post)
    requires PostTree(posts) && PostIdsBelow(posts, next) && AuthorsStored(posts, users)
    requires LikeTable(likes, users, posts) && posts.Keys !! users.Keys
    requires parent in posts && c.uuid !in posts && c.uuid !in users
    requires c.parent.None? && c.comments == [] && c.id == next && c.author in users
    ensures var r := AddCommentLinks(posts[c.uuid := c], parent, c.uuid);
            && PostTree(r) && PostIdsBelow(r, next + 1) && AuthorsStored(r, users)
            && LikeTable(likes, users, r) && r.Keys !! users.Keys
  {
    InsertPostKeepsTree(posts, c.uuid, c);
    var q := posts[c.uuid := c];
    AddCommentKeepsTree(q, parent, c.uuid);
    var r := AddCommentLinks(q, parent, c.uuid);
    forall u | u in r ensures r[u].id < next + 1 && r[u].author in users {
      assert r[u].id == q[u].id && r[u].author == q[u].author;
    }
  }

  /**
   * `getAllPosts(pageable)`: one page of every stored post (comments
   * included), each rendered with its direct comments; the page metadata
   * is copied. `rows` is the order `findAll` scans the table in.
   */
  method GetAllPosts(db: Database, rows: seq<Uuid>, pageable: Pageable) returns (r: PagedResponse<PostResponse>)
    requires db.Valid() && pageable.size > 0 && Enumerates(rows, db.posts.Keys)
    ensures var page := Paginate(rows, pageable);
            && |r.content| == |page.content|
            && (forall i :: 0 <= i < |r.content| ==>
                  (page.content[i] in db.posts && r.content[i] == Render(db.posts, db.users, page.content[i], 1)))
            && r.currentPage == page.number && r.totalPages == page.totalPages
            && r.totalItems == page.totalElements == |db.posts|
            && r.isLast == page.isLast
  {
    var page := Paginate(rows, pageable);
    var list := RenderPage(db.posts, db.users, page.content);
    RowsCountKeys(rows, db.posts.Keys);
    r := PagedResponse(list, page.number, page.totalPages, page.totalElements, page.isLast);
  }

  /** The loop over a page: each post rendered with its direct comments, in page order. */
  method RenderPage(posts: map<Uuid, Post>, users: map<Uuid, User>, ids: seq<Uuid>) returns (list: seq<PostResponse>)
    requires Renderable(posts, users) && forall x :: x in ids ==> x in posts
    ensures |list| == |ids|
    ensures forall k :: 0 <= k < |ids| ==> list[k] == Render(posts, users, ids[k], 1)
  {
    list := [];
    for i := 0 to |ids|
      invariant |list| == i
      invariant forall k :: 0 <= k < i ==> list[k] == Render(posts, users, ids[k], 1)
    {
      list := list + [Render(posts, users, ids[i], 1)];
    }
  }

  /** A complete scan has as many rows as the table has keys. */
  lemma RowsCountKeys(rows: seq<Uuid>, keys: set<Uuid>)
    requires Enumerates(rows, keys)
    ensures |rows| == |keys|
  {
    NoDupsMultiset(rows);
    assert multiset(rows) == multiset(keys) by {
      forall x ensures multiset(rows)[x] == multiset(keys)[x] {
        assert x in rows <==> x in multiset(rows);
      }
    }
  }

  /**
   * `deletePost`: only the author may delete; the delete cascades over the
   * comment tree and over the likes of every deleted post.
   */
  method DeletePost(db: Database, uuid: Uuid, username: string) returns (r: Result<(), ServiceError>)
    requires db.Valid()
    modifies db`posts, db`likes
    ensures db.Valid()
    ensures uuid !in old(db.posts) ==> r == Failure(ResourceNotFound)
    ensures uuid in old(db.posts) && db.users[old(db.posts)[uuid].author].username != username ==>
              r == Failure(AccessDenied(NotAuthorizedToDelete))
    ensures r.Failure? ==> db.posts == old(db.posts) && db.likes == old(db.likes)
    ensures uuid in old(db.posts) && db.users[old(db.posts)[uuid].author].username == username ==>
              && r.Success?
              && db.posts == DeleteSubtree(old(db.posts), uuid)
              && db.likes == set l | l in old(db.likes) && l.post in db.posts
  {
    if uuid !in db.posts {
      return Failure(ResourceNotFound);
    }
    if db.users[db.posts[uuid].author].username != username {
      return Failure(AccessDenied(NotAuthorizedToDelete));
    }
    ghost var others := (db.users, db.profiles, db.follows, db.notifications, db.nextPostId, db.nextNotificationId);
    DeleteKeepsTree(db.posts, uuid);
    db.posts := DeleteSubtree(db.posts, uuid);
    db.likes := set l | l in db.likes && l.post in db.posts;
    assert others == (db.users, db.profiles, db.follows, db.notifications, db.nextPostId, db.nextNotificationId);
    r := Success(());
  }

  /** After a delete none of the post's comments, at any depth, is left, and nothing outside its subtree is lost. */
  lemma DeleteRemovesExactlySubtree(posts: map<Uuid, Post>, root: Uuid, u: Uuid)
    requires PostTree(posts) && root in posts && u in posts
    ensures u in DeleteSubtree(posts, root) <==> !Descends(posts, u, root)
    ensures posts[u].parent == Some(root) ==> u !in DeleteSubtree(posts, root)
  {
  }
}
