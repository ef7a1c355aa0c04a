/**
 * controllers/commentController.js: comments on posts, replies to comments, the author check before an
 * update, and deletion. A reply is listed by its parent only, never by the post.
 */
module CommentController {
  import opened Base
  import opened Seqs
  import opened Strings
  import opened PostModel
  import opened SocialGraph

  function CommentNotFound(id: CommentId): string {
    "Comment not found with id of " + Show(id)
  }

  /** The 401 message; it names the caller, not the comment. */
  function NotAuthor(caller: UserId, action: string): string {
    "User " + Show(caller) + " is not authorized to " + action + " this comment"
  }

  /** The TypeError of line 144 when the comment's post no longer exists. */
  const NULL_COMMENTS := "Cannot read properties of null (reading 'comments')"

  /** The TypeError of line 151 when the comment's parent no longer exists. */
  const NULL_REPLIES := "Cannot read properties of null (reading 'replies')"

  // ---- addComment ----

  /** Lines 42-43: the comment's id goes first in `comments`, then the save hook recounts. */
  function CommentedPost(p: Post, id: CommentId): (r: Post)
    ensures Counted(r) && r.comments == [id] + p.comments && r.commentsCount == |p.comments| + 1
    ensures r.(comments := p.comments, likesCount := p.likesCount, commentsCount := p.commentsCount) == p
  {
    Saved(p.(comments := [id] + p.comments))
  }

  /** The database after a successful `addComment`: a fresh top-level comment, listed first by its post. */
  function Commented(d: Db, user: UserId, postId: PostId): Db
    requires postId in d.posts
  {
    d.(comments := d.comments[d.nextId := Comment(user, postId, None, [])],
       posts := d.posts[postId := CommentedPost(d.posts[postId], d.nextId)],
       nextId := d.nextId + 1)
  }

  /** A new comment keeps the database consistent; its post counts one more comment. */
  lemma CommentedValid(d: Db, user: UserId, postId: PostId)
    requires DbValid(d) && postId in d.posts
    ensures DbValid(Commented(d, user, postId))
    ensures Commented(d, user, postId).posts[postId].commentsCount == d.posts[postId].commentsCount + 1
  {
    var n := d.nextId;
    var p := d.posts[postId];
    assert PostOk(p, n);
    NoDupCons(n, p.comments);
    ValidGrow(d.users, d.posts, d.likes, d.comments, n, n + 1);
    var r := Commented(d, user, postId);
    assert PostOk(r.posts[postId], n + 1);
    assert CommentOk(r.comments[n], n + 1);
  }

  /** `addComment`, lines 27-52. */
  method AddComment(store: Store, caller: UserId, postId: PostId) returns (res: Response)
    requires store.Valid()
    modifies store
    ensures store.Valid()
    ensures postId !in old(store.posts) <==> res == Err(404, PostNotFound(postId))
    ensures postId in old(store.posts) ==> res.Ok?
    ensures res.Err? ==> store.Contents() == old(store.Contents())
    ensures res.Ok? ==>
      && store.Contents() == Commented(old(store.Contents()), caller, postId)
      && res == Ok(201, CommentDoc(old(store.nextId), Comment(caller, postId, None, [])))
  {
    if postId !in store.posts {
      return Err(404, PostNotFound(postId));
    }
    var post := store.posts[postId];
    CommentedValid(store.Contents(), caller, postId);
    var id := store.NewId();
    var comment := Comment(caller, postId, None, []);
    store.comments := store.comments[id := comment];
    post := Saved(post.(comments := [id] + post.comments));
    store.posts := store.posts[postId := post];
    res := Ok(201, CommentDoc(id, comment));
  }

  // ---- addReply ----

  /** The database after a successful `addReply`: a fresh comment on the parent's post, listed first by the parent. */
  function Replied(d: Db, user: UserId, parentId: CommentId): Db
    requires parentId in d.comments
  {
    var parent := d.comments[parentId];
    d.(comments := d.comments[d.nextId := Comment(user, parent.post, Some(parentId), [])]
                             [parentId := parent.(replies := [d.nextId] + parent.replies)],
       nextId := d.nextId + 1)
  }

  /** A reply keeps the database consistent, belongs to its parent's post, and leaves every post as it was. */
  lemma RepliedValid(d: Db, user: UserId, parentId: CommentId)
    requires DbValid(d) && parentId in d.comments
    ensures DbValid(Replied(d, user, parentId))
    ensures Replied(d, user, parentId).posts == d.posts
    ensures Replied(d, user, parentId).comments[d.nextId].post == d.comments[parentId].post
  {
    var n := d.nextId;
    var parent := d.comments[parentId];
    assert CommentOk(parent, n);
    NoDupCons(n, parent.replies);
    ValidGrow(d.users, d.posts, d.likes, d.comments, n, n + 1);
    var r := Replied(d, user, parentId);
    assert CommentOk(r.comments[n], n + 1);
    assert CommentOk(r.comments[parentId], n + 1);
    forall id | id in r.comments && r.comments[id].parentComment.Some? && r.comments[id].parentComment.value in r.comments
      ensures r.comments[r.comments[id].parentComment.value].post == r.comments[id].post
    {
      if id != n && id != parentId {
        assert CommentOk(d.comments[id], n);
      }
    }
  }

  /** `addReply`, lines 57-83. */
  method AddReply(store: Store, caller: UserId, parentId: CommentId) returns (res: Response)
    requires store.Valid()
    modifies store
    ensures store.Valid()
    ensures parentId !in old(store.comments) <==> res == Err(404, CommentNotFound(parentId))
    ensures parentId in old(store.comments) ==> res.Ok?
    ensures res.Err? ==> store.Contents() == old(store.Contents())
    ensures res.Ok? ==>
      && store.Contents() == Replied(old(store.Contents()), caller, parentId)
      && res == Ok(201, CommentDoc(old(store.nextId), Comment(caller, old(store.comments)[parentId].post, Some(parentId), [])))
  {
    if parentId !in store.comments {
      return Err(404, CommentNotFound(parentId));
    }
    var parentComment := store.comments[parentId];
    RepliedValid(store.Contents(), caller, parentId);
    var id := store.NewId();
    var reply := Comment(caller, parentComment.post, Some(parentId), []);
    store.comments := store.comments[id := reply];
    parentComment := parentComment.(replies := [id] + parentComment.replies);
    store.comments := store.comments[parentId := parentComment];
    res := Ok(201, CommentDoc(id, reply));
  }

  // ---- updateComment ----

  /** The checks of `updateComment`, lines 88-105, that precede the generic update. */
  method AuthorizeCommentUpdate(store: Store, caller: UserId, id: CommentId) returns (denied: Option<Response>)
    ensures id !in store.comments ==> denied == Some(Err(404, CommentNotFound(id)))
    ensures id in store.comments && store.comments[id].user != caller ==> denied == Some(Err(401, NotAuthor(caller, "update")))
    ensures denied == None <==> id in store.comments && store.comments[id].user == caller
  {
    if id !in store.comments {
      return Some(Err(404, CommentNotFound(id)));
    }
    if store.comments[id].user != caller {
      return Some(Err(401, NotAuthor(caller, "update")));
    }
    denied := None;
  }

  // ---- deleteComment ----

  /** Lines 144-147: the comment's id leaves the post's `comments`, then the save hook recounts. */
  function UncommentedPost(p: Post, id: CommentId): (r: Post)
    ensures Counted(r) && r.comments == Removed(p.comments, id) && id !in r.comments
    ensures r.(comments := p.comments, likesCount := p.likesCount, commentsCount := p.commentsCount) == p
  {
    Saved(p.(comments := Removed(p.comments, id)))
  }

  /** `Comment.deleteMany({ _id: { $in: ids } })`. */
  function WithoutComments(comments: map<CommentId, Comment>, ids: seq<CommentId>): (r: map<CommentId, Comment>)
    ensures forall id :: id in r <==> id in comments && id !in ids
    ensures forall id :: id in r ==> r[id] == comments[id]
  {
    map id | id in comments && id !in ids :: comments[id]
  }

  /** Lines 149-155: the parent, if any, stops listing the comment. */
  function Unreplied(comments: map<CommentId, Comment>, parent: Option<CommentId>, id: CommentId): map<CommentId, Comment>
    requires parent.Some? ==> parent.value in comments
  {
    if parent.Some? then
      comments[parent.value := comments[parent.value].(replies := Removed(comments[parent.value].replies, id))]
    else comments
  }

  /** The post side of a deletion (lines 143-147), which happens even when the parent turns out to be missing. */
  function PostSideDeleted(d: Db, id: CommentId): Db
    requires id in d.comments && d.comments[id].post in d.posts
  {
    var postId := d.comments[id].post;
    d.(posts := d.posts[postId := UncommentedPost(d.posts[postId], id)])
  }

  /** The database after a `deleteComment` that runs to the end. */
  function CommentDeleted(d: Db, id: CommentId): Db
    requires id in d.comments && d.comments[id].post in d.posts
    requires d.comments[id].parentComment.Some? ==> d.comments[id].parentComment.value in d.comments
  {
    var c := d.comments[id];
    var comments := Unreplied(d.comments, c.parentComment, id);
    var comments := if |c.replies| > 0 then WithoutComments(comments, c.replies) else comments;
    PostSideDeleted(d, id).(comments := comments - {id})
  }

  /** Deletion is one level deep: exactly the comment and the ids in its own `replies` go. */
  lemma DeletedExactly(d: Db, id: CommentId)
    requires id in d.comments && d.comments[id].post in d.posts
    requires d.comments[id].parentComment.Some? ==> d.comments[id].parentComment.value in d.comments
    ensures forall k :: k in CommentDeleted(d, id).comments <==>
      k in d.comments && k != id && k !in d.comments[id].replies
  {
  }

  /** A reply to one of the deleted replies survives, and its `parentComment` now names a comment that is gone. */
  lemma GrandchildSurvives(d: Db, id: CommentId, reply: CommentId, grandchild: CommentId)
    requires id in d.comments && d.comments[id].post in d.posts
    requires d.comments[id].parentComment.Some? ==> d.comments[id].parentComment.value in d.comments
    requires reply in d.comments[id].replies
    requires grandchild in d.comments && d.comments[grandchild].parentComment == Some(reply)
    requires grandchild != id && grandchild !in d.comments[id].replies
    ensures grandchild in CommentDeleted(d, id).comments
    ensures CommentDeleted(d, id).comments[grandchild].parentComment == Some(reply)
    ensures reply !in CommentDeleted(d, id).comments
  {
    var c := d.comments[id];
    if c.parentComment.Some? && c.parentComment.value == grandchild {
      assert Unreplied(d.comments, c.parentComment, id)[grandchild].parentComment == Some(reply);
    }
  }

  /** The post no longer lists the deleted comment and keeps its counter right; other posts are untouched. */
  lemma PostSideDeletedShape(d: Db, id: CommentId)
    requires id in d.comments && d.comments[id].post in d.posts
    ensures var r := PostSideDeleted(d, id); var postId := d.comments[id].post;
      && r.posts.Keys == d.posts.Keys
      && id !in r.posts[postId].comments && Counted(r.posts[postId])
      && (forall p :: p in d.posts && p != postId ==> r.posts[p] == d.posts[p])
      && r.(posts := d.posts) == d
  {
  }

  lemma PostSideDeletedValid(d: Db, id: CommentId)
    requires DbValid(d) && id in d.comments && d.comments[id].post in d.posts
    ensures DbValid(PostSideDeleted(d, id))
  {
    var p := d.posts[d.comments[id].post];
    assert PostOk(p, d.nextId);
    RemovedNoDup(p.comments, id);
  }

  lemma CommentDeletedValid(d: Db, id: CommentId)
    requires DbValid(d) && id in d.comments && d.comments[id].post in d.posts
    requires d.comments[id].parentComment.Some? ==> d.comments[id].parentComment.value in d.comments
    ensures DbValid(CommentDeleted(d, id))
  {
    PostSideDeletedValid(d, id);
    var n := d.nextId;
    var c := d.comments[id];
    var u := Unreplied(d.comments, c.parentComment, id);
    if c.parentComment.Some? {
      var pid := c.parentComment.value;
      assert CommentOk(d.comments[pid], n);
      RemovedNoDup(d.comments[pid].replies, id);
      assert CommentOk(u[pid], n);
    }
    assert forall k :: k in u ==> k in d.comments && u[k].post == d.comments[k].post && u[k].parentComment == d.comments[k].parentComment;
    assert forall k :: k in u ==> CommentOk(u[k], n);
    var r := CommentDeleted(d, id);
    forall k | k in r.comments ensures k < n && CommentOk(r.comments[k], n) {
      assert r.comments[k] == u[k];
    }
    forall k | k in r.comments && r.comments[k].parentComment.Some? && r.comments[k].parentComment.value in r.comments
      ensures r.comments[r.comments[k].parentComment.value].post == r.comments[k].post
    {
      assert r.comments[k] == u[k];
      assert r.comments[k].parentComment.value in u;
    }
  }

  /** `deleteComment`, lines 124-170. The post is saved before the parent is looked up, so a missing parent leaves the post edited. */
  method DeleteComment(store: Store, caller: UserId, id: CommentId) returns (res: Response)
    requires store.Valid()
    modifies store
    ensures store.Valid()
    ensures id !in old(store.comments) ==> res == Err(404, CommentNotFound(id))
    ensures id in old(store.comments) && old(store.comments)[id].user != caller ==> res == Err(401, NotAuthor(caller, "delete"))
    ensures res.Err? && res.status != 500 ==> store.Contents() == old(store.Contents())
    ensures id in old(store.comments) && old(store.comments)[id].user == caller && old(store.comments)[id].post !in old(store.posts) ==>
      res == Err(500, NULL_COMMENTS) && store.Contents() == old(store.Contents())
    ensures id in old(store.comments) && old(store.comments)[id].user == caller && old(store.comments)[id].post in old(store.posts) ==>
      var c := old(store.comments)[id];
      if c.parentComment.Some? && c.parentComment.value !in old(store.comments) then
        res == Err(500, NULL_REPLIES) && store.Contents() == PostSideDeleted(old(store.Contents()), id)
      else
        res == Ok(200, Empty) && store.Contents() == CommentDeleted(old(store.Contents()), id)
  {
    if id !in store.comments {
      return Err(404, CommentNotFound(id));
    }
    var comment := store.comments[id];
    if comment.user != caller {
      return Err(401, NotAuthor(caller, "delete"));
    }
    if comment.post !in store.posts {
      return Err(500, NULL_COMMENTS);
    }
    ghost var before := store.Contents();
    PostSideDeletedValid(before, id);
    var post := store.posts[comment.post];
    post := Saved(post.(comments := Removed(post.comments, id)));
    store.posts := store.posts[comment.post := post];
    if comment.parentComment.Some? {
      if comment.parentComment.value !in store.comments {
        return Err(500, NULL_REPLIES);
      }
      var parentComment := store.comments[comment.parentComment.value];
      parentComment := parentComment.(replies := Removed(parentComment.replies, id));
      store.comments := store.comments[comment.parentComment.value := parentComment];
    }
    if |comment.replies| > 0 {
      store.comments := WithoutComments(store.comments, comment.replies);
    }
    store.comments := store.comments - {id};
    CommentDeletedValid(before, id);
    res := Ok(200, Empty);
  }
}
