/**
 * controllers/postController.js: creating, editing and deleting posts. `updatePost` throws without
 * setting a status, so its two errors reach the client as 500.
 */
module PostController {
  import opened Base
  import opened PostModel
  import opened SocialGraph

  const NOT_AUTHENTICATED := "Not authenticated"
  const CONTENT_REQUIRED := "Content is required"
  const POST_NOT_FOUND := "Post not found"
  const UNAUTHORIZED := "Unauthorized"
  const NOT_YOUR_POST := "Unauthorized - You can only delete your own posts"
  const POST_DELETED := "Post deleted successfully"

  // ---- createPost ----

  /** `createPost`, lines 6-24: the caller is the authenticated user, if any. */
  method CreatePost(store: Store, caller: Option<UserId>, content: Option<string>, image: Option<string>) returns (res: Response)
    requires store.Valid()
    modifies store
    ensures store.Valid()
    ensures caller.None? ==> res == Err(401, NOT_AUTHENTICATED)
    ensures caller.Some? && !Truthy(content) ==> res == Err(400, CONTENT_REQUIRED)
    ensures caller.Some? && Truthy(content) ==> res.Ok?
    ensures res.Err? ==> store.Contents() == old(store.Contents())
    ensures res.Ok? ==>
      && caller.Some? && Truthy(content)
      && var p := Created(caller.value, content.value, image);
      && store.Contents() == old(store.Contents()).(posts := old(store.posts)[old(store.nextId) := p], nextId := old(store.nextId) + 1)
      && res == Ok(201, PostDoc(old(store.nextId), p))
  {
    if caller.None? {
      return Err(401, NOT_AUTHENTICATED);
    }
    if !Truthy(content) {
      return Err(400, CONTENT_REQUIRED);
    }
    var post := Created(caller.value, content.value, image);
    ghost var n := store.nextId;
    var id := store.NewId();
    assert PostOk(post, n + 1);
    store.posts := store.posts[id := post];
    res := Ok(201, PostDoc(id, post));
  }

  // ---- updatePost ----

  /**
   * Line 68, `post.content = req.body.content || post.content`: the getter reads the stored text and the
   * setter writes the chosen text back.
   */
  function UpdatedContent(stored: string, content: Option<string>): string {
    if Truthy(content) then SetContent(content.value) else SetContent(GetContent(stored))
  }

  /** Falsy new content keeps the stored content exactly; truthy content is stored through the setter. */
  lemma UpdatedContentKeepsOld(stored: string, content: Option<string>)
    requires ' ' !in stored
    ensures !Truthy(content) ==> UpdatedContent(stored, content) == stored
    ensures Truthy(content) ==> UpdatedContent(stored, content) == SetContent(content.value)
    ensures ' ' !in UpdatedContent(stored, content)
  {
    SetAfterGet(stored);
  }

  /** `updatePost`, lines 64-71: only `content` changes (and the counters, which the hook recomputes). */
  method UpdatePost(store: Store, caller: UserId, id: PostId, content: Option<string>) returns (res: Response)
    requires store.Valid()
    modifies store
    ensures store.Valid()
    ensures id !in old(store.posts) ==> res == Err(500, POST_NOT_FOUND)
    ensures id in old(store.posts) && old(store.posts)[id].user != caller ==> res == Err(500, UNAUTHORIZED)
    ensures id in old(store.posts) && old(store.posts)[id].user == caller ==> res.Ok?
    ensures res.Err? ==> store.Contents() == old(store.Contents())
    ensures res.Ok? ==>
      && id in old(store.posts) && old(store.posts)[id].user == caller
      && var p := old(store.posts)[id];
      && var q := p.(content := if Truthy(content) then SetContent(content.value) else p.content);
      && store.Contents() == old(store.Contents()).(posts := old(store.posts)[id := q])
      && res == Ok(200, PostDoc(id, q))
  {
    if id !in store.posts {
      return Err(500, POST_NOT_FOUND);
    }
    var post := store.posts[id];
    if post.user != caller {
      return Err(500, UNAUTHORIZED);
    }
    assert PostOk(post, store.nextId);
    UpdatedContentKeepsOld(post.content, content);
    post := Saved(post.(content := UpdatedContent(post.content, content)));
    store.posts := store.posts[id := post];
    res := Ok(200, PostDoc(id, post));
  }

  // ---- deletePost ----

  /** `deletePost`, lines 73-103: only the Post record goes; its Likes, Comments and saved-post entries stay. */
  method DeletePost(store: Store, caller: Option<UserId>, id: PostId) returns (res: Response)
    requires store.Valid()
    modifies store
    ensures store.Valid()
    ensures caller.None? ==> res == Err(401, NOT_AUTHENTICATED)
    ensures caller.Some? && id !in old(store.posts) ==> res == Err(404, POST_NOT_FOUND)
    ensures caller.Some? && id in old(store.posts) && old(store.posts)[id].user != caller.value ==> res == Err(403, NOT_YOUR_POST)
    ensures caller.Some? && id in old(store.posts) && old(store.posts)[id].user == caller.value ==> res.Ok?
    ensures res.Err? ==> store.Contents() == old(store.Contents())
    ensures res.Ok? ==>
      && caller.Some? && id in old(store.posts) && old(store.posts)[id].user == caller.value
      && store.Contents() == old(store.Contents()).(posts := old(store.posts) - {id})
      && res == Ok(200, Message(POST_DELETED))
  {
    if caller.None? {
      return Err(401, NOT_AUTHENTICATED);
    }
    if id !in store.posts {
      return Err(404, POST_NOT_FOUND);
    }
    if store.posts[id].user != caller.value {
      return Err(403, NOT_YOUR_POST);
    }
    store.posts := store.posts - {id};
    res := Ok(200, Message(POST_DELETED));
  }
}
