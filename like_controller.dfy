/**
 * controllers/likeController.js: liking, unliking and asking whether a post is liked. The Like table is
 * meant to hold at most one Like per (user, post); only the handlers' own check keeps it that way.
 */
module LikeController {
  import opened Base
  import opened Seqs
  import opened PostModel
  import opened SocialGraph

  const ALREADY_LIKED := "Post already liked"
  const NOT_LIKED := "Post not liked"

  /** The Like stored under `id` is by `user` on `post`. */
  predicate LikeOf(likes: map<LikeId, Like>, user: UserId, post: PostId, id: LikeId) {
    id in likes && likes[id] == Like(user, post)
  }

  /** `Like.findOne({ user, post })` finds something. */
  ghost predicate HasLike(likes: map<LikeId, Like>, user: UserId, post: PostId) {
    exists id :: LikeOf(likes, user, post, id)
  }

  /** Lines 30-31: the new Like's id goes first in `likes`, then the save hook recounts. */
  function LikedPost(p: Post, id: LikeId): (r: Post)
    ensures Counted(r) && r.likes == [id] + p.likes && r.likesCount == |p.likes| + 1
    ensures r.(likes := p.likes, likesCount := p.likesCount, commentsCount := p.commentsCount) == p
  {
    Saved(p.(likes := [id] + p.likes))
  }

  /** Lines 62-65: the Like's id leaves `likes`, then the save hook recounts. */
  function UnlikedPost(p: Post, id: LikeId): (r: Post)
    ensures Counted(r) && r.likes == Removed(p.likes, id) && id !in r.likes
    ensures r.(likes := p.likes, likesCount := p.likesCount, commentsCount := p.commentsCount) == p
  {
    Saved(p.(likes := Removed(p.likes, id)))
  }

  /** Unliking what was just liked gives back the post, its counter included. */
  lemma UnlikeAfterLike(p: Post, id: LikeId)
    requires Counted(p) && id !in p.likes
    ensures UnlikedPost(LikedPost(p, id), id) == p
  {
    RemovedAfterPrepend(p.likes, id);
  }

  /** The database after a successful `likePost`: a fresh Like and the post that lists it. */
  function Liked(d: Db, user: UserId, postId: PostId): Db
    requires postId in d.posts
  {
    d.(likes := d.likes[d.nextId := Like(user, postId)],
       posts := d.posts[postId := LikedPost(d.posts[postId], d.nextId)],
       nextId := d.nextId + 1)
  }

  /** The database after a successful `unlikePost` of the Like `likeId`. */
  function Unliked(d: Db, postId: PostId, likeId: LikeId): Db
    requires postId in d.posts
  {
    d.(posts := d.posts[postId := UnlikedPost(d.posts[postId], likeId)], likes := d.likes - {likeId})
  }

  /** A like that passed the duplicate check keeps the database consistent, and now the pair has its Like. */
  lemma LikedValid(d: Db, user: UserId, postId: PostId)
    requires DbValid(d) && postId in d.posts && !HasLike(d.likes, user, postId)
    ensures DbValid(Liked(d, user, postId))
    ensures LikeOf(Liked(d, user, postId).likes, user, postId, d.nextId)
    ensures |Liked(d, user, postId).posts[postId].likes| == |d.posts[postId].likes| + 1
  {
    var r := Liked(d, user, postId);
    var n := d.nextId;
    var p := d.posts[postId];
    assert PostOk(p, n);
    NoDupCons(n, p.likes);
    ValidGrow(d.users, d.posts, d.likes, d.comments, n, n + 1);
    assert PostOk(r.posts[postId], n + 1);
    forall k | k in d.likes ensures d.likes[k] != Like(user, postId) {
      assert !LikeOf(d.likes, user, postId, k);
    }
    forall i, j | i in r.likes && j in r.likes && r.likes[i] == r.likes[j] ensures i == j {
      if i != n && j != n {
        assert d.likes[i] == d.likes[j];
      }
    }
  }

  /** An unlike keeps the database consistent, and unliking a listed Like lowers the counter by exactly one. */
  lemma UnlikedValid(d: Db, postId: PostId, likeId: LikeId)
    requires DbValid(d) && postId in d.posts
    ensures DbValid(Unliked(d, postId, likeId))
    ensures likeId in d.posts[postId].likes ==>
      Unliked(d, postId, likeId).posts[postId].likesCount == d.posts[postId].likesCount - 1
  {
    var p := d.posts[postId];
    assert PostOk(p, d.nextId);
    RemovedNoDup(p.likes, likeId);
    if likeId in p.likes {
      RemovedOnce(p.likes, likeId);
    }
  }

  /** From a consistent state, like then unlike by the same user restores the post, its counter and the Like table. */
  lemma UnlikeUndoesLike(d: Db, user: UserId, postId: PostId)
    requires DbValid(d) && postId in d.posts
    ensures Unliked(Liked(d, user, postId), postId, d.nextId) == d.(nextId := d.nextId + 1)
  {
    var p := d.posts[postId];
    assert PostOk(p, d.nextId);
    assert d.nextId !in p.likes;
    UnlikeAfterLike(p, d.nextId);
    assert d.nextId !in d.likes;
    assert d.likes[d.nextId := Like(user, postId)] - {d.nextId} == d.likes;
  }

  /** `Like.findOne({ user, post })` (lines 16-19, 53-56, 81-84). */
  method FindLike(store: Store, user: UserId, postId: PostId) returns (found: Option<LikeId>)
    ensures found.Some? ==> LikeOf(store.likes, user, postId, found.value)
    ensures found.None? <==> !HasLike(store.likes, user, postId)
  {
    if exists id :: id in store.likes && store.likes[id] == Like(user, postId) {
      var id :| id in store.likes && store.likes[id] == Like(user, postId);
      assert LikeOf(store.likes, user, postId, id);
      found := Some(id);
    } else {
      assert forall id :: !LikeOf(store.likes, user, postId, id);
      found := None;
    }
  }

  /** `likePost`, lines 6-40. */
  method LikePost(store: Store, caller: UserId, postId: PostId) returns (res: Response)
    requires store.Valid()
    modifies store
    ensures store.Valid()
    ensures postId !in old(store.posts) ==> res == Err(404, PostNotFound(postId))
    ensures postId in old(store.posts) && HasLike(old(store.likes), caller, postId) ==> res == Err(400, ALREADY_LIKED)
    ensures postId in old(store.posts) && !HasLike(old(store.likes), caller, postId) ==> res.Ok?
    ensures res.Err? ==> store.Contents() == old(store.Contents())
    ensures res.Ok? ==>
      && postId in old(store.posts) && !HasLike(old(store.likes), caller, postId)
      && store.Contents() == Liked(old(store.Contents()), caller, postId)
      && res == Ok(201, LikeDoc(old(store.nextId), Like(caller, postId)))
  {
    if postId !in store.posts {
      return Err(404, PostNotFound(postId));
    }
    var post := store.posts[postId];
    var existing := FindLike(store, caller, postId);
    if existing.Some? {
      return Err(400, ALREADY_LIKED);
    }
    LikedValid(store.Contents(), caller, postId);
    var id := store.NewId();
    var like := Like(caller, postId);
    store.likes := store.likes[id := like];
    post := Saved(post.(likes := [id] + post.likes));
    store.posts := store.posts[postId := post];
    res := Ok(201, LikeDoc(id, like));
  }

  /** `unlikePost`, lines 43-76: the post is saved before the Like is deleted. */
  method UnlikePost(store: Store, caller: UserId, postId: PostId) returns (res: Response)
    requires store.Valid()
    modifies store
    ensures store.Valid()
    ensures postId !in old(store.posts) ==> res == Err(404, PostNotFound(postId))
    ensures postId in old(store.posts) && !HasLike(old(store.likes), caller, postId) ==> res == Err(400, NOT_LIKED)
    ensures postId in old(store.posts) && HasLike(old(store.likes), caller, postId) ==> res.Ok?
    ensures res.Err? ==> store.Contents() == old(store.Contents())
    ensures res.Ok? ==> postId in old(store.posts) && HasLike(old(store.likes), caller, postId) && res == Ok(200, Empty)
    ensures res.Ok? ==> forall id :: LikeOf(old(store.likes), caller, postId, id) ==>
      store.Contents() == Unliked(old(store.Contents()), postId, id)
  {
    if postId !in store.posts {
      return Err(404, PostNotFound(postId));
    }
    var post := store.posts[postId];
    var like := FindLike(store, caller, postId);
    if like.None? {
      return Err(400, NOT_LIKED);
    }
    var id := like.value;
    UnlikedValid(store.Contents(), postId, id);
    post := Saved(post.(likes := Removed(post.likes, id)));
    store.posts := store.posts[postId := post];
    store.likes := store.likes - {id};
    res := Ok(200, Empty);
  }

  /** `checkLike`, lines 79-93: whether the pair has a Like; the post need not exist, and nothing changes. */
  method CheckLike(store: Store, caller: UserId, postId: PostId) returns (res: Response)
    ensures res == Ok(200, LikeStatus(HasLike(store.likes, caller, postId)))
  {
    var like := FindLike(store, caller, postId);
    res := Ok(200, LikeStatus(like.Some?));
  }
}
