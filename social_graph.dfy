/**
 * The document store the controllers share: four collections kept as maps, one id counter, the
 * responses handlers send, and the consistency the handlers keep between the collections.
 * Nothing in the database enforces any of it; each handler maintains it by hand.
 */
module SocialGraph {
  import opened Base
  import opened Seqs
  import opened Strings
  import opened PostModel
  import opened UserModel

  /** A Like document. models/Like.js is not part of this model: the fields are the two the like controller queries and creates. */
  datatype Like = Like(user: UserId, post: PostId)

  /**
   * A Comment document. models/Comment.js is not part of this model: the fields are those the comment
   * controller sets and reads. The comment's text is left out.
   */
  datatype Comment = Comment(user: UserId, post: PostId, parentComment: Option<CommentId>, replies: seq<CommentId>)

  /** The user object `register` and `login` send back: there is no password member. */
  datatype UserView = UserView(
    id: UserId, name: string, username: string, mobileNo: string,
    followers: seq<UserId>, following: seq<UserId>, profileImage: string, token: string)

  /** The `token` cookie: its value and `maxAge` in milliseconds. */
  datatype Cookie = Cookie(token: string, maxAgeMs: nat)

  /** The JSON a successful handler sends. */
  datatype Body =
    | Empty                                                   // `data: {}`
    | Message(text: string)
    | FollowLists(text: string, following: seq<UserId>, followers: seq<UserId>)
    | SavedList(savedPosts: seq<PostId>)
    | LikeDoc(likeId: LikeId, like: Like)
    | LikeStatus(liked: bool)
    | CommentDoc(commentId: CommentId, comment: Comment)
    | PostDoc(postId: PostId, post: Post)
    | Session(user: UserView, cookie: Cookie)

  /** What a handler answers: a status with a body, or an error status with the error's message. */
  datatype Response = Ok(status: nat, body: Body) | Err(status: nat, message: string)

  /** The `ErrorResponse` message the like, comment and save handlers give for a missing post. */
  function PostNotFound(id: PostId): string {
    "Post not found with id of " + Show(id)
  }

  // ---- consistency between the collections ----

  /** Every id in the array was issued before `n`. */
  predicate Below(s: seq<nat>, n: nat) {
    forall x :: x in s ==> x < n
  }

  /** One user's own arrays: issued ids, no duplicates, no self-follow. */
  ghost predicate UserOk(id: UserId, u: User, n: nat) {
    && Below(u.followers, n) && Below(u.following, n) && Below(u.savedPosts, n) && Below(u.posts, n)
    && NoDup(u.followers) && NoDup(u.following) && NoDup(u.savedPosts)
    && id !in u.followers && id !in u.following
  }

  /** `followers` and `following` describe one relation from both ends. */
  ghost predicate FollowSymmetric(users: map<UserId, User>) {
    forall a, b :: a in users && b in users ==> (b in users[a].following <==> a in users[b].followers)
  }

  /** The unique index on `username`. */
  ghost predicate UsernamesUnique(users: map<UserId, User>) {
    forall a, b :: a in users && b in users && users[a].username == users[b].username ==> a == b
  }

  /** The unique index on `mobileNo`. */
  ghost predicate MobilesUnique(users: map<UserId, User>) {
    forall a, b :: a in users && b in users && users[a].mobileNo == users[b].mobileNo ==> a == b
  }

  ghost predicate UsersValid(users: map<UserId, User>, n: nat) {
    && (forall id :: id in users ==> id < n && UserOk(id, users[id], n))
    && FollowSymmetric(users)
    && UsernamesUnique(users) && MobilesUnique(users)
  }

  /** Both unique indexes survive any edit that drops users or leaves their `username` and `mobileNo` alone. */
  lemma UniqueIndexesKept(users: map<UserId, User>, r: map<UserId, User>)
    requires UsernamesUnique(users) && MobilesUnique(users)
    requires forall id :: id in r ==> id in users && r[id].username == users[id].username && r[id].mobileNo == users[id].mobileNo
    ensures UsernamesUnique(r) && MobilesUnique(r)
  {
    forall a, b | a in r && b in r && r[a].username == r[b].username ensures a == b {
      assert users[a].username == users[b].username;
    }
    forall a, b | a in r && b in r && r[a].mobileNo == r[b].mobileNo ensures a == b {
      assert users[a].mobileNo == users[b].mobileNo;
    }
  }

  /** One post: counters agree with arrays (the save hook), content in stored form, issued and distinct ids. */
  ghost predicate PostOk(p: Post, n: nat) {
    && Counted(p)
    && ' ' !in p.content
    && Below(p.likes, n) && Below(p.comments, n)
    && NoDup(p.likes) && NoDup(p.comments)
  }

  ghost predicate PostsValid(posts: map<PostId, Post>, n: nat) {
    forall id :: id in posts ==> id < n && PostOk(posts[id], n)
  }

  /** At most one Like per (user, post) pair. */
  ghost predicate LikesUnique(likes: map<LikeId, Like>) {
    forall i, j :: i in likes && j in likes && likes[i] == likes[j] ==> i == j
  }

  ghost predicate LikesValid(likes: map<LikeId, Like>, n: nat) {
    (forall id :: id in likes ==> id < n) && LikesUnique(likes)
  }

  ghost predicate CommentOk(c: Comment, n: nat) {
    Below(c.replies, n) && NoDup(c.replies) && (c.parentComment.Some? ==> c.parentComment.value < n)
  }

  /** A reply belongs to the same post as its (still existing) parent. */
  ghost predicate RepliesSamePost(comments: map<CommentId, Comment>) {
    forall id :: id in comments && comments[id].parentComment.Some? && comments[id].parentComment.value in comments ==>
      comments[comments[id].parentComment.value].post == comments[id].post
  }

  ghost predicate CommentsValid(comments: map<CommentId, Comment>, n: nat) {
    (forall id :: id in comments ==> id < n && CommentOk(comments[id], n)) && RepliesSamePost(comments)
  }

  lemma BelowGrow(s: seq<nat>, n: nat, m: nat)
    requires Below(s, n) && n <= m
    ensures Below(s, m)
  {
  }

  /** Issuing a new id keeps every collection's invariant. */
  lemma ValidGrow(users: map<UserId, User>, posts: map<PostId, Post>, likes: map<LikeId, Like>,
                  comments: map<CommentId, Comment>, n: nat, m: nat)
    requires n <= m
    requires UsersValid(users, n) && PostsValid(posts, n) && LikesValid(likes, n) && CommentsValid(comments, n)
    ensures UsersValid(users, m) && PostsValid(posts, m) && LikesValid(likes, m) && CommentsValid(comments, m)
  {
    forall id | id in users ensures UserOk(id, users[id], m) {
      var u := users[id];
      BelowGrow(u.followers, n, m); BelowGrow(u.following, n, m);
      BelowGrow(u.savedPosts, n, m); BelowGrow(u.posts, n, m);
    }
    forall id | id in posts ensures PostOk(posts[id], m) {
      BelowGrow(posts[id].likes, n, m); BelowGrow(posts[id].comments, n, m);
    }
    forall id | id in comments ensures CommentOk(comments[id], m) {
      BelowGrow(comments[id].replies, n, m);
    }
  }

  /** A snapshot of the whole database. */
  datatype Db = Db(users: map<UserId, User>, posts: map<PostId, Post>, likes: map<LikeId, Like>,
                   comments: map<CommentId, Comment>, nextId: nat)

  ghost predicate DbValid(d: Db) {
    UsersValid(d.users, d.nextId) && PostsValid(d.posts, d.nextId) && LikesValid(d.likes, d.nextId) && CommentsValid(d.comments, d.nextId)
  }

  /** The in-memory database: one map per collection and the counter that issues ids. */
  class Store {
    var users: map<UserId, User>
    var posts: map<PostId, Post>
    var likes: map<LikeId, Like>
    var comments: map<CommentId, Comment>
    var nextId: nat

    /** The current contents, as one value. */
    function Contents(): Db
      reads this
    {
      Db(users, posts, likes, comments, nextId)
    }

    ghost predicate Valid()
      reads this
    {
      DbValid(Contents())
    }

    /** An empty database. */
    constructor ()
      ensures Valid()
      ensures users == map[] && posts == map[] && likes == map[] && comments == map[]
    {
      users, posts, likes, comments := map[], map[], map[], map[];
      nextId := 0;
    }

    /** A new ObjectId: one that no document has and no array mentions. */
    method NewId() returns (id: nat)
      requires Valid()
      modifies this`nextId
      ensures Valid()
      ensures id == old(nextId) && nextId == id + 1
      ensures id !in users && id !in posts && id !in likes && id !in comments
    {
      id := nextId;
      ValidGrow(users, posts, likes, comments, nextId, nextId + 1);
      nextId := nextId + 1;
    }
  }
}
