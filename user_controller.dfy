/**
 * controllers/userController.js: following, saved posts, the two account deletions, the owner-or-admin
 * check and the old profile image's public id. Each handler is one atomic step on the store.
 */
module UserController {
  import opened Base
  import opened Seqs
  import opened Strings
  import opened UserModel
  import opened PostModel
  import opened SocialGraph

  const CANT_FOLLOW_SELF := "You can't follow yourself."
  const CANT_UNFOLLOW_SELF := "You can't unfollow yourself."
  const USER_NOT_FOUND := "User not found"
  const ALREADY_FOLLOWING := "Already following this user"
  const NOT_FOLLOWING := "Not following this user"
  const FOLLOWED := "Followed successfully"
  const UNFOLLOWED := "Unfollowed successfully"
  const POST_ALREADY_SAVED := "Post already saved"
  const POST_NOT_SAVED := "Post not saved"
  const ACCOUNT_NOT_YOURS := "Not authorized to delete this account"
  const ACCOUNT_DELETED := "User account and all related data deleted successfully"

  /** The TypeError raised by reading a property of the null that `findById` returns for a missing user. */
  const NULL_SAVED_POSTS := "Cannot read properties of null (reading 'savedPosts')"

  /** The TypeError raised by calling a method on the undefined `user.savedPosts`. */
  const UNDEFINED_SOME := "Cannot read properties of undefined (reading 'some')"

  function UserNotFoundWithId(id: UserId): string {
    "User not found with id of " + Show(id)
  }

  // ---- follow / unfollow ----

  /** The state after lines 202-207: the target goes to the end of `following`, the actor to the end of the target's `followers`. */
  function Followed(users: map<UserId, User>, me: UserId, target: UserId): (r: map<UserId, User>)
    requires me in users && target in users && me != target
    ensures r.Keys == users.Keys
    ensures r[me] == users[me].(following := users[me].following + [target])
    ensures r[target] == users[target].(followers := users[target].followers + [me])
    ensures forall id :: id in users && id != me && id != target ==> r[id] == users[id]
  {
    users[me := users[me].(following := users[me].following + [target])]
         [target := users[target].(followers := users[target].followers + [me])]
  }

  /** The state after lines 245-252: every occurrence of the other party goes from both arrays, the rest keep their order. */
  function Unfollowed(users: map<UserId, User>, me: UserId, target: UserId): (r: map<UserId, User>)
    requires me in users && target in users && me != target
    ensures r.Keys == users.Keys
    ensures r[me] == users[me].(following := Removed(users[me].following, target))
    ensures r[target] == users[target].(followers := Removed(users[target].followers, me))
    ensures forall id :: id in users && id != me && id != target ==> r[id] == users[id]
  {
    users[me := users[me].(following := Removed(users[me].following, target))]
         [target := users[target].(followers := Removed(users[target].followers, me))]
  }

  /** A follow that passed every check keeps the graph consistent: no duplicates, no self-follow, both ends agree. */
  lemma FollowedValid(users: map<UserId, User>, n: nat, me: UserId, target: UserId)
    requires UsersValid(users, n) && me in users && target in users && me != target
    requires target !in users[me].following
    ensures UsersValid(Followed(users, me, target), n)
  {
    var r := Followed(users, me, target);
    FollowedUsersOk(users, n, me, target);
    FollowedSymmetric(users, me, target);
    UniqueIndexesKept(users, r);
  }

  lemma FollowedUsersOk(users: map<UserId, User>, n: nat, me: UserId, target: UserId)
    requires UsersValid(users, n) && me in users && target in users && me != target
    requires target !in users[me].following
    ensures forall id :: id in Followed(users, me, target) ==> id < n && UserOk(id, Followed(users, me, target)[id], n)
  {
    var r := Followed(users, me, target);
    assert me !in users[target].followers;
    assert UserOk(me, users[me], n) && UserOk(target, users[target], n);
    AppendNoDup(users[me].following, target);
    AppendNoDup(users[target].followers, me);
    forall id | id in r ensures id < n && UserOk(id, r[id], n) {
      if id != me && id != target { assert UserOk(id, users[id], n); }
    }
  }

  lemma FollowedSymmetric(users: map<UserId, User>, me: UserId, target: UserId)
    requires FollowSymmetric(users) && me in users && target in users && me != target
    ensures FollowSymmetric(Followed(users, me, target))
  {
    var r := Followed(users, me, target);
    forall a, b | a in r && b in r ensures b in r[a].following <==> a in r[b].followers {
      assert b in users[a].following <==> a in users[b].followers;
    }
  }

  /** An unfollow keeps the graph consistent. */
  lemma UnfollowedValid(users: map<UserId, User>, n: nat, me: UserId, target: UserId)
    requires UsersValid(users, n) && me in users && target in users && me != target
    ensures UsersValid(Unfollowed(users, me, target), n)
  {
    var r := Unfollowed(users, me, target);
    RemovedNoDup(users[me].following, target);
    RemovedNoDup(users[target].followers, me);
    forall id | id in r ensures id < n && UserOk(id, r[id], n) {
      assert UserOk(id, users[id], n);
    }
    forall a, b | a in r && b in r ensures b in r[a].following <==> a in r[b].followers {
      assert b in users[a].following <==> a in users[b].followers;
    }
    UniqueIndexesKept(users, r);
  }

  /** From a consistent state without the edge, follow then unfollow gives back every user record exactly. */
  lemma UnfollowAfterFollow(users: map<UserId, User>, n: nat, me: UserId, target: UserId)
    requires UsersValid(users, n) && me in users && target in users && me != target
    requires target !in users[me].following
    ensures Unfollowed(Followed(users, me, target), me, target) == users
  {
    assert me !in users[target].followers;
    RemovedAfterAppend(users[me].following, target);
    RemovedAfterAppend(users[target].followers, me);
    var r := Unfollowed(Followed(users, me, target), me, target);
    assert r[me] == users[me];
    assert r[target] == users[target];
  }

  /** `followUser`, lines 178-218. */
  method FollowUser(store: Store, me: UserId, target: UserId) returns (res: Response)
    requires store.Valid()
    modifies store
    ensures store.Valid()
    ensures me == target ==> res == Err(400, CANT_FOLLOW_SELF)
    ensures me != target && (me !in old(store.users) || target !in old(store.users)) ==> res == Err(404, USER_NOT_FOUND)
    ensures me != target && me in old(store.users) && target in old(store.users) && target in old(store.users)[me].following ==>
      res == Err(400, ALREADY_FOLLOWING)
    ensures me != target && me in old(store.users) && target in old(store.users) && target !in old(store.users)[me].following ==>
      res.Ok?
    ensures res.Err? ==> store.Contents() == old(store.Contents())
    ensures res.Ok? ==>
      && me != target && me in old(store.users) && target in old(store.users) && target !in old(store.users)[me].following
      && store.Contents() == old(store.Contents()).(users := Followed(old(store.users), me, target))
      && res == Ok(200, FollowLists(FOLLOWED, store.users[me].following, store.users[target].followers))
  {
    if me == target {
      return Err(400, CANT_FOLLOW_SELF);
    }
    if me !in store.users || target !in store.users {
      return Err(404, USER_NOT_FOUND);
    }
    var currentUser := store.users[me];
    var targetUser := store.users[target];
    if target in currentUser.following {
      return Err(400, ALREADY_FOLLOWING);
    }
    FollowedValid(store.users, store.nextId, me, target);
    currentUser := currentUser.(following := currentUser.following + [target]);
    targetUser := targetUser.(followers := targetUser.followers + [me]);
    store.users := store.users[me := currentUser];
    store.users := store.users[target := targetUser];
    res := Ok(200, FollowLists(FOLLOWED, currentUser.following, targetUser.followers));
  }

  /** `unfollowUser`, lines 221-266. */
  method UnfollowUser(store: Store, me: UserId, target: UserId) returns (res: Response)
    requires store.Valid()
    modifies store
    ensures store.Valid()
    ensures me == target ==> res == Err(400, CANT_UNFOLLOW_SELF)
    ensures me != target && (me !in old(store.users) || target !in old(store.users)) ==> res == Err(404, USER_NOT_FOUND)
    ensures me != target && me in old(store.users) && target in old(store.users) && target !in old(store.users)[me].following ==>
      res == Err(400, NOT_FOLLOWING)
    ensures me != target && me in old(store.users) && target in old(store.users) && target in old(store.users)[me].following ==>
      res.Ok?
    ensures res.Err? ==> store.Contents() == old(store.Contents())
    ensures res.Ok? ==>
      && me != target && me in old(store.users) && target in old(store.users) && target in old(store.users)[me].following
      && store.Contents() == old(store.Contents()).(users := Unfollowed(old(store.users), me, target))
      && res == Ok(200, FollowLists(UNFOLLOWED, store.users[me].following, store.users[target].followers))
  {
    if me == target {
      return Err(400, CANT_UNFOLLOW_SELF);
    }
    if me !in store.users || target !in store.users {
      return Err(404, USER_NOT_FOUND);
    }
    var currentUser := store.users[me];
    var targetUser := store.users[target];
    if target !in currentUser.following {
      return Err(400, NOT_FOLLOWING);
    }
    UnfollowedValid(store.users, store.nextId, me, target);
    currentUser := currentUser.(following := Removed(currentUser.following, target));
    targetUser := targetUser.(followers := Removed(targetUser.followers, me));
    store.users := store.users[me := currentUser];
    store.users := store.users[target := targetUser];
    res := Ok(200, FollowLists(UNFOLLOWED, currentUser.following, targetUser.followers));
  }

  // ---- saved posts ----

  /**
   * `savePost` (lines 269-292) and `unsavePost` (lines 295-321) as written: both run the same code up to
   * their first read of `user.savedPosts` (line 278, line 304). With `savedPosts` absent from the schema
   * that read gives undefined, so no request gets past it. The answer is 404 or a TypeError (500), and
   * nothing is written.
   */
  method SavedPostsAsWritten(store: Store, caller: UserId, postId: PostId) returns (res: Response)
    ensures postId !in store.posts ==> res == Err(404, PostNotFound(postId))
    ensures postId in store.posts && caller !in store.users ==> res == Err(500, NULL_SAVED_POSTS)
    ensures postId in store.posts && caller in store.users ==> res == Err(500, UNDEFINED_SOME)
  {
    if postId !in store.posts {
      return Err(404, PostNotFound(postId));
    }
    if caller !in store.users {
      return Err(500, NULL_SAVED_POSTS);
    }
    var user := store.users[caller];
    UndeclaredPaths(user, user.savedPosts);
    assert Get(user, "savedPosts") == Undefined;
    res := Err(500, UNDEFINED_SOME);
  }

  /** `user.savedPosts.unshift(post._id)`. */
  function SavedPost(users: map<UserId, User>, caller: UserId, postId: PostId): (r: map<UserId, User>)
    requires caller in users
    ensures r.Keys == users.Keys
    ensures r[caller] == users[caller].(savedPosts := [postId] + users[caller].savedPosts)
    ensures forall id :: id in users && id != caller ==> r[id] == users[id]
  {
    users[caller := users[caller].(savedPosts := [postId] + users[caller].savedPosts)]
  }

  /** `user.savedPosts = user.savedPosts.filter(...)`. */
  function UnsavedPost(users: map<UserId, User>, caller: UserId, postId: PostId): (r: map<UserId, User>)
    requires caller in users
    ensures r.Keys == users.Keys
    ensures r[caller] == users[caller].(savedPosts := Removed(users[caller].savedPosts, postId))
    ensures forall id :: id in users && id != caller ==> r[id] == users[id]
  {
    users[caller := users[caller].(savedPosts := Removed(users[caller].savedPosts, postId))]
  }

  /**
   * The `pre('save')` hook re-hashes only a modified password: a follow, an unfollow, a save or an
   * unsave leaves every password unmodified, so the hook (models/User.js:82-88) keeps every stored digest.
   */
  lemma FollowKeepsPasswords(users: map<UserId, User>, me: UserId, target: UserId, postId: PostId, digest: string)
    requires me in users && target in users && me != target
    ensures forall id :: id in users ==>
      var after := Followed(users, me, target)[id];
      !PasswordModified(users[id], after) &&
      PasswordOnSave(after.password, PasswordModified(users[id], after), digest) == users[id].password
    ensures forall id :: id in users ==>
      var after := Unfollowed(users, me, target)[id];
      !PasswordModified(users[id], after) &&
      PasswordOnSave(after.password, PasswordModified(users[id], after), digest) == users[id].password
    ensures forall id :: id in users ==>
      var after := SavedPost(users, me, postId)[id];
      !PasswordModified(users[id], after) &&
      PasswordOnSave(after.password, PasswordModified(users[id], after), digest) == users[id].password
    ensures forall id :: id in users ==>
      var after := UnsavedPost(users, me, postId)[id];
      !PasswordModified(users[id], after) &&
      PasswordOnSave(after.password, PasswordModified(users[id], after), digest) == users[id].password
  {
  }

  /** Saving a post not yet saved keeps `savedPosts` duplicate-free, and the rest of the graph consistent. */
  lemma SavedPostValid(users: map<UserId, User>, n: nat, caller: UserId, postId: PostId)
    requires UsersValid(users, n) && caller in users && postId < n
    requires postId !in users[caller].savedPosts
    ensures UsersValid(SavedPost(users, caller, postId), n)
    ensures NoDup(SavedPost(users, caller, postId)[caller].savedPosts)
  {
    var r := SavedPost(users, caller, postId);
    NoDupCons(postId, users[caller].savedPosts);
    forall id | id in r ensures id < n && UserOk(id, r[id], n) {
      assert UserOk(id, users[id], n);
    }
    forall a, b | a in r && b in r ensures b in r[a].following <==> a in r[b].followers {
      assert b in users[a].following <==> a in users[b].followers;
    }
    UniqueIndexesKept(users, r);
  }

  /** Unsaving keeps `savedPosts` duplicate-free and takes the post out of it. */
  lemma UnsavedPostValid(users: map<UserId, User>, n: nat, caller: UserId, postId: PostId)
    requires UsersValid(users, n) && caller in users
    ensures UsersValid(UnsavedPost(users, caller, postId), n)
    ensures postId !in UnsavedPost(users, caller, postId)[caller].savedPosts
  {
    var r := UnsavedPost(users, caller, postId);
    RemovedNoDup(users[caller].savedPosts, postId);
    forall id | id in r ensures id < n && UserOk(id, r[id], n) {
      assert UserOk(id, users[id], n);
    }
    forall a, b | a in r && b in r ensures b in r[a].following <==> a in r[b].followers {
      assert b in users[a].following <==> a in users[b].followers;
    }
    UniqueIndexesKept(users, r);
  }

  /** Unsaving what was just saved gives back the user records. */
  lemma UnsaveAfterSave(users: map<UserId, User>, caller: UserId, postId: PostId)
    requires caller in users && postId !in users[caller].savedPosts
    ensures UnsavedPost(SavedPost(users, caller, postId), caller, postId) == users
  {
    RemovedAfterPrepend(users[caller].savedPosts, postId);
    var r := UnsavedPost(SavedPost(users, caller, postId), caller, postId);
    assert r[caller] == users[caller];
  }

  /** `savePost` with `savedPosts` declared on the schema (an array of post ids, empty by default). */
  method SavePost(store: Store, caller: UserId, postId: PostId) returns (res: Response)
    requires store.Valid()
    modifies store
    ensures store.Valid()
    ensures postId !in old(store.posts) ==> res == Err(404, PostNotFound(postId))
    ensures postId in old(store.posts) && caller !in old(store.users) ==> res == Err(500, NULL_SAVED_POSTS)
    ensures postId in old(store.posts) && caller in old(store.users) && postId in old(store.users)[caller].savedPosts ==>
      res == Err(400, POST_ALREADY_SAVED)
    ensures postId in old(store.posts) && caller in old(store.users) && postId !in old(store.users)[caller].savedPosts ==>
      res.Ok?
    ensures res.Err? ==> store.Contents() == old(store.Contents())
    ensures res.Ok? ==>
      && postId in old(store.posts) && caller in old(store.users) && postId !in old(store.users)[caller].savedPosts
      && store.Contents() == old(store.Contents()).(users := SavedPost(old(store.users), caller, postId))
      && res == Ok(200, SavedList(store.users[caller].savedPosts))
  {
    if postId !in store.posts {
      return Err(404, PostNotFound(postId));
    }
    if caller !in store.users {
      return Err(500, NULL_SAVED_POSTS);
    }
    var user := store.users[caller];
    if postId in user.savedPosts {
      return Err(400, POST_ALREADY_SAVED);
    }
    SavedPostValid(store.users, store.nextId, caller, postId);
    user := user.(savedPosts := [postId] + user.savedPosts);
    store.users := store.users[caller := user];
    res := Ok(200, SavedList(user.savedPosts));
  }

  /** `unsavePost` with `savedPosts` declared on the schema. */
  method UnsavePost(store: Store, caller: UserId, postId: PostId) returns (res: Response)
    requires store.Valid()
    modifies store
    ensures store.Valid()
    ensures postId !in old(store.posts) ==> res == Err(404, PostNotFound(postId))
    ensures postId in old(store.posts) && caller !in old(store.users) ==> res == Err(500, NULL_SAVED_POSTS)
    ensures postId in old(store.posts) && caller in old(store.users) && postId !in old(store.users)[caller].savedPosts ==>
      res == Err(400, POST_NOT_SAVED)
    ensures postId in old(store.posts) && caller in old(store.users) && postId in old(store.users)[caller].savedPosts ==>
      res.Ok?
    ensures res.Err? ==> store.Contents() == old(store.Contents())
    ensures res.Ok? ==>
      && postId in old(store.posts) && caller in old(store.users) && postId in old(store.users)[caller].savedPosts
      && store.Contents() == old(store.Contents()).(users := UnsavedPost(old(store.users), caller, postId))
      && res == Ok(200, SavedList(store.users[caller].savedPosts))
  {
    if postId !in store.posts {
      return Err(404, PostNotFound(postId));
    }
    if caller !in store.users {
      return Err(500, NULL_SAVED_POSTS);
    }
    var user := store.users[caller];
    if postId !in user.savedPosts {
      return Err(400, POST_NOT_SAVED);
    }
    UnsavedPostValid(store.users, store.nextId, caller, postId);
    user := user.(savedPosts := Removed(user.savedPosts, postId));
    store.users := store.users[caller := user];
    res := Ok(200, SavedList(user.savedPosts));
  }

  // ---- owner or admin ----

  /**
   * The check at lines 128 and 154: the caller is the user in question, or `req.user.role` is `admin`.
   * `callerDoc` is the caller's document as `protect` loaded it.
   */
  predicate OwnerOrAdmin(target: UserId, caller: UserId, callerDoc: User) {
    target == caller || Get(callerDoc, "role") == Text("admin")
  }

  /** The schema declares no `role`, so `req.user.role` is undefined for every caller and only the owner passes. */
  lemma OnlyOwnerWithoutRole(target: UserId, caller: UserId, callerDoc: User)
    ensures OwnerOrAdmin(target, caller, callerDoc) <==> target == caller
  {
    UndeclaredPaths(callerDoc, callerDoc.savedPosts);
  }

  /** The authorisation part of `updateUser`, lines 120-130: which error, if any, precedes the update. */
  method AuthorizeUserUpdate(store: Store, caller: UserId, callerDoc: User, target: UserId) returns (denied: Option<Response>)
    ensures target !in store.users ==> denied == Some(Err(404, UserNotFoundWithId(target)))
    ensures target in store.users && !OwnerOrAdmin(target, caller, callerDoc) ==>
      denied == Some(Err(401, "User " + Show(target) + " is not authorized to update this user"))
    ensures denied == None <==> target in store.users && OwnerOrAdmin(target, caller, callerDoc)
  {
    if target !in store.users {
      return Some(Err(404, UserNotFoundWithId(target)));
    }
    if target != caller && Get(callerDoc, "role") != Text("admin") {
      return Some(Err(401, "User " + Show(target) + " is not authorized to update this user"));
    }
    denied := None;
  }

  // ---- deleteUser ----

  /** `Post.deleteMany({ user })`: the posts whose `user` is someone else. */
  function PostsNotBy(posts: map<PostId, Post>, user: UserId): (r: map<PostId, Post>)
    ensures forall id :: id in r <==> id in posts && posts[id].user != user
    ensures forall id :: id in r ==> r[id] == posts[id]
  {
    map id | id in posts && posts[id].user != user :: posts[id]
  }

  /** The database after a successful `deleteUser` of `target`. */
  function UserDeleted(d: Db, target: UserId): (r: Db)
    ensures forall id :: id in r.users <==> id in d.users && id != target
    ensures forall id :: id in r.users ==> r.users[id] == d.users[id]
    ensures forall id :: id in r.posts <==> id in d.posts && d.posts[id].user != target
    ensures r.likes == d.likes && r.comments == d.comments && r.nextId == d.nextId
  {
    d.(users := d.users - {target}, posts := PostsNotBy(d.posts, target))
  }

  /** `deleteUser`, lines 146-175: the user and their posts go; Likes, Comments and other users' arrays stay. */
  method DeleteUser(store: Store, caller: UserId, callerDoc: User, target: UserId) returns (res: Response)
    requires store.Valid()
    modifies store
    ensures store.Valid()
    ensures target !in old(store.users) ==> res == Err(404, UserNotFoundWithId(target))
    ensures target in old(store.users) && !OwnerOrAdmin(target, caller, callerDoc) ==>
      res == Err(401, "User " + Show(target) + " is not authorized to delete this user")
    ensures res.Err? ==> store.Contents() == old(store.Contents())
    ensures target in old(store.users) && OwnerOrAdmin(target, caller, callerDoc) ==> res.Ok?
    ensures res.Ok? ==>
      && target in old(store.users) && OwnerOrAdmin(target, caller, callerDoc)
      && store.Contents() == UserDeleted(old(store.Contents()), target)
      && res == Ok(200, Empty)
  {
    if target !in store.users {
      return Err(404, UserNotFoundWithId(target));
    }
    if target != caller && Get(callerDoc, "role") != Text("admin") {
      return Err(401, "User " + Show(target) + " is not authorized to delete this user");
    }
    store.posts := PostsNotBy(store.posts, target);
    store.users := store.users - {target};
    res := Ok(200, Empty);
  }

  /**
   * After `deleteUser` the deleted id is still listed by everyone who followed it, and the Likes it made
   * are all still there: nothing else is cleaned up.
   */
  lemma DeleteUserLeavesFollowers(d: Db, target: UserId, follower: UserId)
    requires follower in d.users && follower != target && target in d.users[follower].following
    ensures var r := UserDeleted(d, target);
      target !in r.users && follower in r.users && target in r.users[follower].following
    ensures forall l :: l in d.likes && d.likes[l].user == target ==> l in UserDeleted(d, target).likes
  {
  }

  // ---- the old profile image ----

  /** `url.split('/')` taken at its last piece: the file name. */
  function LastSegment(url: string): (seg: string)
    ensures '/' !in seg
    ensures |seg| <= |url| && url[|url| - |seg|..] == seg
    ensures |seg| == |url| || url[|url| - |seg| - 1] == '/'
  {
    SplitLast(url, '/');
    var parts := Split(url, '/');
    parts[|parts| - 1]
  }

  /** `name.split('.')[0]`: the file name up to its first dot. */
  function BaseName(name: string): (b: string)
    ensures '.' !in b
    ensures |b| <= |name| && name[..|b|] == b
    ensures |b| == |name| || name[|b|] == '.'
  {
    SplitFirst(name, '.');
    Split(name, '.')[0]
  }

  /**
   * The public id of the image to destroy, lines 364-367 and 458-460: none for an empty URL or one that
   * mentions `default.jpg`, otherwise `user_profiles/` and the last path piece up to its first dot.
   */
  function OldImagePublicId(url: string): (r: Option<string>)
    ensures r.Some? <==> url != "" && !Contains(url, "default.jpg")
    ensures r.Some? ==> r.value == "user_profiles/" + BaseName(LastSegment(url))
  {
    if url != "" && !Contains(url, "default.jpg") then Some("user_profiles/" + BaseName(LastSegment(url))) else None
  }

  /** The id is `user_profiles/` and a name that holds neither `/` nor `.`, and that starts the URL's last piece. */
  lemma PublicIdShape(url: string)
    requires OldImagePublicId(url).Some?
    ensures exists name :: (OldImagePublicId(url).value == "user_profiles/" + name && '/' !in name && '.' !in name
      && StartsWith(LastSegment(url), name))
  {
    var seg := LastSegment(url);
    var name := BaseName(seg);
    forall k | 0 <= k < |name| ensures name[k] != '/' {
      assert name[k] == seg[k];
    }
  }

  /** The schema's default image URL does not mention `default.jpg`, so it is treated as an uploaded image. */
  lemma DefaultImageCountsAsUploaded()
    ensures OldImagePublicId(DEFAULT_PROFILE_IMAGE).Some?
  {
    assert "default.jpg"[4] == 'u';
    MissingCharNotContained(DEFAULT_PROFILE_IMAGE, "default.jpg", 'u');
  }

  // ---- deleteUserAccount ----

  /** The route parameter: an ObjectId or a username. */
  datatype Identifier = ById(id: UserId) | ByUsername(name: string)

  /** Which user `findOne({ $or: [{ _id }, { username }] })` matches (the username filter goes through the schema's setters). */
  ghost predicate Matches(users: map<UserId, User>, ident: Identifier, id: UserId) {
    id in users &&
    match ident
    case ById(i) => id == i
    case ByUsername(name) => users[id].username == NormalizeUsername(name)
  }

  /** The posts removed by the cascade: those whose `user` is the account. */
  ghost predicate OwnedPost(posts: map<PostId, Post>, user: UserId, post: PostId) {
    post in posts && posts[post].user == user
  }

  /** `$pull: { followers: user, following: user }` on the users that mention it. */
  function Pulled(u: User, user: UserId): (r: User)
    ensures user !in r.followers && user !in r.following
    ensures r.(followers := u.followers, following := u.following) == u
    ensures forall x :: x != user ==> (x in r.followers <==> x in u.followers) && (x in r.following <==> x in u.following)
  {
    if user in u.followers || user in u.following then
      u.(followers := Removed(u.followers, user), following := Removed(u.following, user))
    else u
  }

  /** `Post.find({ user })`, the ids only. */
  function PostsBy(posts: map<PostId, Post>, user: UserId): (r: set<PostId>)
    ensures forall id :: id in r <==> OwnedPost(posts, user, id)
  {
    set id | id in posts && posts[id].user == user
  }

  /** `Like.deleteMany({ post: { $in: postIds } })`. */
  function LikesOffPosts(likes: map<LikeId, Like>, postIds: set<PostId>): (r: map<LikeId, Like>)
    ensures forall id :: id in r <==> id in likes && likes[id].post !in postIds
    ensures forall id :: id in r ==> r[id] == likes[id]
  {
    map id | id in likes && likes[id].post !in postIds :: likes[id]
  }

  /** `Like.deleteMany({ user })`. */
  function LikesNotBy(likes: map<LikeId, Like>, user: UserId): (r: map<LikeId, Like>)
    ensures forall id :: id in r <==> id in likes && likes[id].user != user
    ensures forall id :: id in r ==> r[id] == likes[id]
  {
    map id | id in likes && likes[id].user != user :: likes[id]
  }

  /** `Comment.deleteMany({ post: { $in: postIds } })`. */
  function CommentsOffPosts(comments: map<CommentId, Comment>, postIds: set<PostId>): (r: map<CommentId, Comment>)
    ensures forall id :: id in r <==> id in comments && comments[id].post !in postIds
    ensures forall id :: id in r ==> r[id] == comments[id]
  {
    map id | id in comments && comments[id].post !in postIds :: comments[id]
  }

  /** `Comment.deleteMany({ user })`. */
  function CommentsNotBy(comments: map<CommentId, Comment>, user: UserId): (r: map<CommentId, Comment>)
    ensures forall id :: id in r <==> id in comments && comments[id].user != user
    ensures forall id :: id in r ==> r[id] == comments[id]
  {
    map id | id in comments && comments[id].user != user :: comments[id]
  }

  /** `User.updateMany({ $or: [...] }, { $pull: ... })`. */
  function PulledAll(users: map<UserId, User>, user: UserId): (r: map<UserId, User>)
    ensures r.Keys == users.Keys
    ensures forall id :: id in r ==> r[id] == Pulled(users[id], user)
  {
    map id | id in users :: Pulled(users[id], user)
  }

  /** What lines 464-492 leave behind, statement by statement in the written order. */
  function Purged(d: Db, user: UserId): (r: Db)
    ensures r.nextId == d.nextId
    ensures forall id :: id in r.users <==> id in d.users && id != user
    ensures forall id :: id in r.users ==> r.users[id] == Pulled(d.users[id], user)
    ensures forall id :: id in r.posts <==> id in d.posts && d.posts[id].user != user
    ensures forall id :: id in r.posts ==> r.posts[id] == d.posts[id]
    ensures forall id :: id in r.likes <==>
      id in d.likes && d.likes[id].user != user && !OwnedPost(d.posts, user, d.likes[id].post)
    ensures forall id :: id in r.likes ==> r.likes[id] == d.likes[id]
    ensures forall id :: id in r.comments <==>
      id in d.comments && d.comments[id].user != user && !OwnedPost(d.posts, user, d.comments[id].post)
    ensures forall id :: id in r.comments ==> r.comments[id] == d.comments[id]
  {
    var userPosts := PostsBy(d.posts, user);
    var likes1 := LikesOffPosts(d.likes, userPosts);
    var comments1 := CommentsOffPosts(d.comments, userPosts);
    var posts := PostsNotBy(d.posts, user);
    var likes := LikesNotBy(likes1, user);
    var comments := CommentsNotBy(comments1, user);
    var users := PulledAll(d.users, user) - {user};
    Db(users, posts, likes, comments, d.nextId)
  }

  /** A completed account deletion leaves no trace of the account in any collection. */
  lemma PurgedLeavesNoTrace(d: Db, user: UserId)
    ensures var r := Purged(d, user);
      && user !in r.users
      && (forall id :: id in r.users ==> user !in r.users[id].followers && user !in r.users[id].following)
      && (forall id :: id in r.posts ==> r.posts[id].user != user)
      && (forall id :: id in r.likes ==> r.likes[id].user != user && !OwnedPost(d.posts, user, r.likes[id].post))
      && (forall id :: id in r.comments ==> r.comments[id].user != user && !OwnedPost(d.posts, user, r.comments[id].post))
  {
  }

  /** The cascade pulls only follow links: another user's saved-post list keeps the id of a deleted post. */
  lemma SavedPostsDangle(d: Db, user: UserId, v: UserId, p: PostId)
    requires v in d.users && v != user && p in d.users[v].savedPosts
    requires p in d.posts && d.posts[p].user == user
    ensures var r := Purged(d, user); v in r.users && p in r.users[v].savedPosts && p !in r.posts
  {
  }

  /** A surviving post still lists, in `likes`, the id of a Like that the account made and the cascade deleted. */
  lemma LikeIdsDangle(d: Db, user: UserId, q: PostId, l: LikeId)
    requires q in d.posts && d.posts[q].user != user && l in d.posts[q].likes
    requires l in d.likes && d.likes[l].user == user
    ensures var r := Purged(d, user); q in r.posts && l in r.posts[q].likes && l !in r.likes
  {
  }

  /** A surviving post still lists, in `comments`, the id of a Comment that the account made and the cascade deleted. */
  lemma CommentIdsDangle(d: Db, user: UserId, q: PostId, c: CommentId)
    requires q in d.posts && d.posts[q].user != user && c in d.posts[q].comments
    requires c in d.comments && d.comments[c].user == user
    ensures var r := Purged(d, user); q in r.posts && c in r.posts[q].comments && c !in r.comments
  {
  }

  /** A surviving comment still lists, in `replies`, the id of a reply that the account made and the cascade deleted. */
  lemma ReplyIdsDangle(d: Db, user: UserId, c: CommentId, reply: CommentId)
    requires c in d.comments && d.comments[c].user != user && !OwnedPost(d.posts, user, d.comments[c].post)
    requires reply in d.comments[c].replies && reply in d.comments && d.comments[reply].user == user
    ensures var r := Purged(d, user); c in r.comments && reply in r.comments[c].replies && reply !in r.comments
  {
  }

  /** The cascade keeps the collections consistent. */
  lemma PurgedValid(d: Db, user: UserId)
    requires DbValid(d)
    ensures DbValid(Purged(d, user))
  {
    var r := Purged(d, user);
    var n := d.nextId;
    forall id | id in r.users ensures id < n && UserOk(id, r.users[id], n) {
      var u := d.users[id];
      assert UserOk(id, u, n);
      if user in u.followers || user in u.following {
        RemovedNoDup(u.followers, user);
        RemovedNoDup(u.following, user);
      }
    }
    forall a, b | a in r.users && b in r.users ensures b in r.users[a].following <==> a in r.users[b].followers {
      assert b in d.users[a].following <==> a in d.users[b].followers;
    }
    UniqueIndexesKept(d.users, r.users);
    forall id | id in r.comments && r.comments[id].parentComment.Some? && r.comments[id].parentComment.value in r.comments
      ensures r.comments[r.comments[id].parentComment.value].post == r.comments[id].post
    {
      assert id in d.comments && r.comments[id].parentComment.value in d.comments;
    }
    forall i, j | i in r.likes && j in r.likes && r.likes[i] == r.likes[j] ensures i == j {
      assert d.likes[i] == d.likes[j];
    }
  }

  /** At most one user matches: ids are keys, and usernames are unique. */
  lemma MatchUnique(users: map<UserId, User>, ident: Identifier, a: UserId, b: UserId)
    requires UsernamesUnique(users) && Matches(users, ident, a) && Matches(users, ident, b)
    ensures a == b
  {
  }

  /** Lines 439-444: the user the identifier names, if any. */
  method FindAccount(store: Store, ident: Identifier) returns (found: Option<UserId>)
    ensures found.Some? ==> Matches(store.users, ident, found.value)
    ensures found.None? ==> forall id :: !Matches(store.users, ident, id)
  {
    found := None;
    match ident {
      case ById(i) =>
        if i in store.users { found := Some(i); }
      case ByUsername(name) =>
        var key := NormalizeUsername(name);
        if exists id :: id in store.users && store.users[id].username == key {
          var id :| id in store.users && store.users[id].username == key;
          found := Some(id);
        }
    }
  }

  /** Lines 464-492, statement by statement. */
  method Cascade(store: Store, user: UserId)
    requires store.Valid()
    modifies store
    ensures store.Valid()
    ensures store.Contents() == Purged(old(store.Contents()), user)
  {
    PurgedValid(store.Contents(), user);
    var userPosts := PostsBy(store.posts, user);
    store.likes := LikesOffPosts(store.likes, userPosts);
    store.comments := CommentsOffPosts(store.comments, userPosts);
    store.posts := PostsNotBy(store.posts, user);
    store.likes := LikesNotBy(store.likes, user);
    store.comments := CommentsNotBy(store.comments, user);
    store.users := PulledAll(store.users, user);
    store.users := store.users - {user};
  }

  /** The ReferenceError of line 467: the module never imports `Like`. */
  const LIKE_NOT_DEFINED := "Like is not defined"

  /**
   * `deleteUserAccount` as written, lines 435-504. `Like` and `Comment` are not imported (the imports at
   * lines 161-162 are commented out), so once the checks pass and the image is destroyed, line 467 raises a
   * ReferenceError. No status was set on that path, so the answer is 500, and no collection has changed.
   */
  method DeleteUserAccountAsWritten(store: Store, caller: UserId, ident: Identifier) returns (res: Response, destroyed: Option<string>)
    requires UsernamesUnique(store.users)
    ensures (forall id :: !Matches(store.users, ident, id)) ==> res == Err(404, USER_NOT_FOUND) && destroyed == None
    ensures (exists id :: Matches(store.users, ident, id)) && !Matches(store.users, ident, caller) ==>
      res == Err(403, ACCOUNT_NOT_YOURS) && destroyed == None
    ensures Matches(store.users, ident, caller) ==>
      res == Err(500, LIKE_NOT_DEFINED) && destroyed == OldImagePublicId(store.users[caller].profileImage)
  {
    var found := FindAccount(store, ident);
    if found.None? {
      return Err(404, USER_NOT_FOUND), None;
    }
    var user := found.value;
    if user != caller {
      if Matches(store.users, ident, caller) {
        MatchUnique(store.users, ident, user, caller);
      }
      return Err(403, ACCOUNT_NOT_YOURS), None;
    }
    destroyed := OldImagePublicId(store.users[user].profileImage);
    res := Err(500, LIKE_NOT_DEFINED);
  }

  /**
   * `deleteUserAccount`, lines 435-504, with `Like` and `Comment` imported: the cascade runs as the text
   * states it, in the written order. `destroyed` is the public id handed to the media service, if any.
   */
  method DeleteUserAccount(store: Store, caller: UserId, ident: Identifier) returns (res: Response, destroyed: Option<string>)
    requires store.Valid()
    modifies store
    ensures store.Valid()
    ensures (forall id :: !Matches(old(store.users), ident, id)) ==> res == Err(404, USER_NOT_FOUND)
    ensures (exists id :: Matches(old(store.users), ident, id)) && !Matches(old(store.users), ident, caller) ==>
      res == Err(403, ACCOUNT_NOT_YOURS)
    ensures Matches(old(store.users), ident, caller) ==> res.Ok?
    ensures res.Err? ==> store.Contents() == old(store.Contents()) && destroyed == None
    ensures res.Err? ==> res == Err(404, USER_NOT_FOUND) || res == Err(403, ACCOUNT_NOT_YOURS)
    ensures res.Ok? ==>
      && Matches(old(store.users), ident, caller)
      && destroyed == OldImagePublicId(old(store.users)[caller].profileImage)
      && store.Contents() == Purged(old(store.Contents()), caller)
      && res == Ok(200, Message(ACCOUNT_DELETED))
  {
    var found := FindAccount(store, ident);
    if found.None? {
      return Err(404, USER_NOT_FOUND), None;
    }
    var user := found.value;
    if user != caller {
      if Matches(store.users, ident, caller) {
        MatchUnique(store.users, ident, user, caller);
      }
      return Err(403, ACCOUNT_NOT_YOURS), None;
    }
    destroyed := OldImagePublicId(store.users[user].profileImage);
    Cascade(store, user);
    res := Ok(200, Message(ACCOUNT_DELETED));
  }
}
