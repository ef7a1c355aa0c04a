# unsaid-server social graph, modelled in Dafny

This project models the consistency-keeping core of the unsaid-server backend. That is an
Express/Mongoose service with users, posts, likes, comments with one level of replies, follow
relations and saved posts. Each handler becomes one atomic step on an in-memory store, the class
`SocialGraph.Store`. The store has one map per collection, Users, Posts, Likes and Comments, plus a
counter that issues fresh ObjectIds. `Store.Contents()` returns the whole state as one `Db` value.
`DbValid` is the consistency the handlers are meant to keep:

- followers and following describe one relation from both ends;
- no user follows themselves, and no array holds an id twice;
- usernames and mobile numbers are unique (the two unique indexes);
- each post's counters equal the lengths of its arrays (the save hook);
- post content is in stored form, with no ASCII space left after the setter;
- there is at most one Like per (user, post) pair;
- a reply belongs to the same post as its parent;
- every id in every array was issued before.

Every handler is a method with a contract. It requires a consistent store and keeps it consistent.
Each error it can return is tied to the input that causes it, and a request that passes every check
is ensured to succeed. On an error the store is left exactly
as it was, except where the source writes before it fails: a comment deletion whose parent is
missing. On success the new state equals a value-level function of the old one, such as `Followed`,
`Purged`, `Liked` or `CommentDeleted`. Lemmas prove what the source promises about those functions:

- they keep `DbValid`;
- undo steps really undo (unfollow after follow, unlike after like, unsave after save);
- the account cascade leaves no record of the account and no follow link to it;
- comment deletion goes exactly one level deep.

The modules follow the source files:

- `base`, `seqs` and `strings` hold shared helpers: Option, duplicate-free sequences and removal,
  `split`/`join`, substring search, decimal rendering of ids.
- `post_model` models `models/Post.js`: the content getter and setter and the counter hook.
- `user_model` models `models/User.js`: the `trim` and `lowercase` setters, the validators, the
  mobile-number regular expression, the defaults and the password hook.
- `auth_middleware` models `middlewares/auth.js`: how the token is chosen and how each failure maps
  to a 401 message.
- `social_graph` holds the store and its invariant.
- one module per controller in `controllers/`.

Outside calls are parameters of the model. JWT signing and verification, bcrypt hashing and
comparison, and the database lookup of `protect` are oracle functions. The media host's `destroy`
call is an out-parameter that holds the public id it would receive. Ids are natural numbers issued
in sequence, and `Show` renders an id as text in error messages.

## Model

| member | source | states |
|---|---|---|
| `PostModel.SetContent` | models/Post.js:11-14 | every ASCII space becomes U+00A0, every other character is kept, and no space is left |
| `PostModel.GetContent` | models/Post.js:7-10 | every U+00A0 reads back as a space, every other character is kept, and no U+00A0 is left |
| `PostModel.GetAfterSet` | models/Post.js:7-14 | reading back stored text gives the original text, if it held no U+00A0 |
| `PostModel.SetAfterGet` | models/Post.js:7-14 | writing back what was read gives the stored text, so re-saving does not change content |
| `PostModel.Saved` | models/Post.js:41-45 | after the save hook both counters equal their arrays' lengths, and nothing else changes |
| `PostModel.Created` | models/Post.js:3-38 | a new post has the caller as owner, content through the setter, empty arrays and zero counters |
| `UserModel.Get` | models/User.js:4-79 | a path the schema declares reads a defined value, and any other path reads as undefined |
| `UserModel.UndeclaredPaths` | models/User.js:4-79 | for every user document, `savedPosts` and `role` read as undefined, and the model's `savedPosts` field shows through no path |
| `UserModel.Trim` | models/User.js:9 | the `trim` setter: leading and trailing ECMAScript white space and line terminators go |
| `UserModel.Lower` | models/User.js:19 | the `lowercase` setter, character by character, for ASCII letters |
| `UserModel.TrimIdempotent` | models/User.js:9 | trimming twice is trimming once |
| `UserModel.LowerIdempotent` | models/User.js:19 | lower-casing twice is lower-casing once |
| `UserModel.LowerTrimCommute` | models/User.js:16-19 | `trim` and `lowercase` commute, so the order the setters run in does not matter |
| `UserModel.NormalizeUsername` | models/User.js:16-19 | what the two setters store for a username: trimmed, then lower-cased |
| `UserModel.ValidName` | models/User.js:6-11 | a name is required and at most 50 characters after trimming |
| `UserModel.ValidUsername` | models/User.js:12-20 | a username is 3 to 20 characters after the setters |
| `UserModel.ValidPassword` | models/User.js:38-43 | a password is at least 6 characters and is not trimmed |
| `UserModel.ValidMobile` | models/User.js:30-34 | the mobile-number regular expression, read position by position |
| `UserModel.ValidNewUser` | models/User.js:4-48 | every validator the schema runs on a new registration |
| `UserModel.StoredUsername` | models/User.js:12-20 | a valid username is stored trimmed and lower-cased, 3 to 20 characters long |
| `UserModel.StoredName` | models/User.js:6-11 | a valid name is stored trimmed, 1 to 50 characters long |
| `UserModel.MobileMatchesRegex` | models/User.js:30-34 | the validator accepts exactly an optional `+`, a digit 1-9 and 1 to 14 more digits |
| `UserModel.PasswordOnSave` | models/User.js:82-88 | the stored password is replaced by its digest exactly when it was modified |
| `UserModel.PasswordModified` | models/User.js:83 | the hook's `isModified("password")` test, taken as a change of the stored value |
| `UserModel.NewUser` | models/User.js:49-72 | a new user gets the setters' name and username, the digest, empty arrays and the default image |
| `Seqs.Removed` | controllers/userController.js:245-252 | `filter` of one value: the value does not remain, every other member does, and the order is kept |
| `Strings.Split` | controllers/userController.js:365 | `split` gives at least one piece, no piece holds the separator, and joining the pieces gives back the string |
| `Strings.SplitJoin` | controllers/userController.js:365 | splitting a join of separator-free pieces gives the pieces back |
| `Strings.SplitFirst` | controllers/userController.js:367 | the first piece is the text before the first separator, or the whole string |
| `Strings.SplitLast` | controllers/userController.js:366 | the last piece is the text after the last separator, or the whole string |
| `AuthMiddleware.BearerField` | middlewares/auth.js:60 | `authorization.split(' ')[1]`, undefined when the header holds no space |
| `AuthMiddleware.BearerFieldIsSecondField` | middlewares/auth.js:60 | the header token is the text between the first and the second space |
| `AuthMiddleware.NoSpaceNoField` | middlewares/auth.js:60 | a header without a space yields no token |
| `AuthMiddleware.SelectToken` | middlewares/auth.js:59-65 | the token is taken from a header starting `Bearer`, else from a truthy cookie, else there is none |
| `AuthMiddleware.HeaderWins` | middlewares/auth.js:59-61 | a header starting `Bearer` decides the token, whatever the cookie holds |
| `AuthMiddleware.CookieFallback` | middlewares/auth.js:63-65 | without a Bearer header, a non-empty cookie is the token, and otherwise there is none |
| `AuthMiddleware.BareBearerHasNoToken` | middlewares/auth.js:59-71 | a bare `Bearer` header gives "no token" even when a cookie is present |
| `AuthMiddleware.ErrorMessage` | middlewares/auth.js:93-102 | expired and malformed tokens get their own messages, and every other error gets "Not authorized" |
| `AuthMiddleware.Protect` | middlewares/auth.js:55-104 | no token gives 401 "no token"; the request goes on exactly when the token verifies and its user exists, as that user; an error thrown by the verifier or the lookup, and the missing user, get 401 with the catch block's message for their name |
| `AuthMiddleware.NoTokenSkipsVerification` | middlewares/auth.js:67-71 | without a token the outcome does not depend on the verifier or the database |
| `AuthMiddleware.MissingUserIsNotAuthorized` | middlewares/auth.js:79-102 | a valid token whose user is gone gets "Not authorized", because the catch block re-throws it |
| `SocialGraph.UniqueIndexesKept` | models/User.js:12-29 | an edit that removes users, or keeps their username and mobile number, keeps both unique indexes |
| `SocialGraph.Store.constructor` | config/db.js:6-14 | the database the server connects to, starting empty: no users, posts, Likes or Comments |
| `SocialGraph.Store.NewId` | controllers/likeController.js:25-28 | the `_id` a `create` issues: one no document has and no array names, with every collection left as it was |
| `UserController.Followed` | controllers/userController.js:202-207 | the target goes to the end of the actor's `following`, the actor to the end of the target's `followers` |
| `UserController.Unfollowed` | controllers/userController.js:245-252 | the other party leaves both arrays, and the rest keep their order |
| `UserController.FollowedValid` | controllers/userController.js:190-207 | a follow that passed the checks keeps the graph consistent (symmetric, no duplicates, no self-follow) |
| `UserController.UnfollowedValid` | controllers/userController.js:245-252 | an unfollow keeps the graph consistent |
| `UserController.UnfollowAfterFollow` | controllers/userController.js:178-266 | from a consistent state without the edge, unfollow after follow restores every user exactly |
| `UserController.FollowKeepsPasswords` | models/User.js:82-88 | a follow, an unfollow, a save or an unsave of a post leaves every password unmodified, so the save hook run by their `user.save()` calls keeps every stored digest |
| `UserController.FollowUser` | controllers/userController.js:178-218 | self, missing user and "already following" give 400/404/400 and change nothing; a request that passes all three succeeds, yielding `Followed` |
| `UserController.UnfollowUser` | controllers/userController.js:221-266 | self, missing user and "not following" give 400/404/400 and change nothing; a request that passes all three succeeds, yielding `Unfollowed` |
| `UserController.SavedPostsAsWritten` | controllers/userController.js:269-292 | `savePost` as written, and `unsavePost` (lines 295-321), which runs the same code: 404 for a missing post, and otherwise a 500 TypeError; nothing is ever saved or unsaved |
| `UserController.SavedPost` | controllers/userController.js:282 | the post goes first in `savedPosts`, and nothing else in the user changes |
| `UserController.UnsavedPost` | controllers/userController.js:308-310 | every occurrence of the post leaves `savedPosts`, and nothing else in the user changes |
| `UserController.SavedPostValid` | controllers/userController.js:278-283 | saving a post not yet saved keeps the database consistent |
| `UserController.UnsavedPostValid` | controllers/userController.js:304-310 | unsaving keeps the database consistent and removes the post |
| `UserController.UnsaveAfterSave` | controllers/userController.js:278-310 | unsave after save restores the user |
| `UserController.SavePost` | controllers/userController.js:269-292 | with `savedPosts` declared: 404, 500 for a missing caller, 400 if already saved; otherwise it succeeds with `SavedPost`, answering the new list |
| `UserController.UnsavePost` | controllers/userController.js:295-321 | with `savedPosts` declared: 404, 500 for a missing caller, 400 if not saved; otherwise it succeeds with `UnsavedPost`, answering the new list |
| `UserController.OwnerOrAdmin` | controllers/userController.js:128 | the caller is the user in question, or the caller's document reads `role` as `admin` |
| `UserController.OnlyOwnerWithoutRole` | controllers/userController.js:128 | since every document reads `role` as undefined, the owner-or-admin check passes exactly for the owner |
| `UserController.AuthorizeUserUpdate` | controllers/userController.js:120-130 | 404 for a missing user, 401 for a non-owner who is not admin, and otherwise the update may go ahead |
| `UserController.PostsNotBy` | controllers/userController.js:158 | exactly the posts of other users survive |
| `UserController.UserDeleted` | controllers/userController.js:158-166 | the user and their posts go; Likes, Comments and every other user stay as they were |
| `UserController.DeleteUser` | controllers/userController.js:146-175 | 404/401 change nothing; an owner-or-admin request for an existing user succeeds with `UserDeleted` |
| `UserController.DeleteUserLeavesFollowers` | controllers/userController.js:158-166 | after `deleteUser` every follower still lists the deleted id, and every Like the user made is kept |
| `UserController.LastSegment` | controllers/userController.js:365-366 | the last piece of `split('/')`: it holds no `/` and ends the URL |
| `UserController.BaseName` | controllers/userController.js:367 | the file name up to its first dot: a prefix holding no dot |
| `UserController.OldImagePublicId` | controllers/userController.js:364-367 | an id exists exactly for a non-empty URL without `default.jpg`, and it is `user_profiles/` plus the base name |
| `UserController.PublicIdShape` | controllers/userController.js:364-367 | the id's name part holds neither `/` nor `.`, and it starts the URL's last piece |
| `UserController.DefaultImageCountsAsUploaded` | controllers/userController.js:458 | the schema's default image URL does not mention `default.jpg`, so it is sent to `destroy` |
| `UserController.Pulled` | controllers/userController.js:486-489 | the account leaves both arrays of a user, and nothing else changes |
| `UserController.PostsBy` | controllers/userController.js:464 | exactly the ids of the account's posts |
| `UserController.LikesOffPosts` | controllers/userController.js:467-469 | exactly the Likes on other posts survive |
| `UserController.CommentsOffPosts` | controllers/userController.js:472-474 | exactly the Comments on other posts survive |
| `UserController.LikesNotBy` | controllers/userController.js:480 | exactly the Likes by other users survive |
| `UserController.CommentsNotBy` | controllers/userController.js:483 | exactly the Comments by other users survive |
| `UserController.PulledAll` | controllers/userController.js:486-489 | every user has the account pulled from its arrays |
| `UserController.Purged` | controllers/userController.js:464-492 | the net effect of the cascade, collection by collection |
| `UserController.PurgedLeavesNoTrace` | controllers/userController.js:464-492 | after the cascade the account is no user, no follow array names it, and no post, Like or Comment is by it or on one of its posts |
| `UserController.SavedPostsDangle` | controllers/userController.js:486-489 | another user's `savedPosts` keeps the id of a deleted post, because only follow links are pulled |
| `UserController.LikeIdsDangle` | controllers/userController.js:480 | a surviving post's `likes` keeps the id of a deleted Like by the account |
| `UserController.CommentIdsDangle` | controllers/userController.js:483 | a surviving post's `comments` keeps the id of a deleted Comment by the account |
| `UserController.ReplyIdsDangle` | controllers/userController.js:483 | a surviving comment's `replies` keeps the id of a deleted reply by the account |
| `UserController.PurgedValid` | controllers/userController.js:464-492 | the cascade keeps the database consistent |
| `UserController.MatchUnique` | controllers/userController.js:439-444 | at most one user matches the id-or-username lookup |
| `UserController.FindAccount` | controllers/userController.js:439-444 | finds the user the identifier names, or reports that none does |
| `UserController.Cascade` | controllers/userController.js:464-492 | the statements in the written order reach `Purged`, and the invariant is kept |
| `UserController.DeleteUserAccountAsWritten` | controllers/userController.js:435-504 | as written: 404, 403, and otherwise a 500 ReferenceError once the image is destroyed |
| `UserController.DeleteUserAccount` | controllers/userController.js:435-504 | with the models imported: 404/403 change nothing; the owner's request destroys the old image and yields `Purged` |
| `LikeController.LikedPost` | controllers/likeController.js:30-31 | the new Like goes first in `likes`, and both counters are right |
| `LikeController.UnlikedPost` | controllers/likeController.js:62-65 | the Like leaves `likes`, and both counters are right |
| `LikeController.Liked` | controllers/likeController.js:25-31 | the database after a like: a fresh Like for the pair, and the post listing it first |
| `LikeController.Unliked` | controllers/likeController.js:62-67 | the database after an unlike: the Like is gone, and its post no longer lists it |
| `LikeController.UnlikeAfterLike` | controllers/likeController.js:25-65 | unliking a fresh like restores the post, counters included |
| `LikeController.LikedValid` | controllers/likeController.js:16-31 | a like that passed the duplicate check keeps the database consistent and adds exactly one like |
| `LikeController.UnlikedValid` | controllers/likeController.js:53-67 | an unlike keeps the database consistent, and removing a listed Like lowers `likesCount` by exactly one |
| `LikeController.UnlikeUndoesLike` | controllers/likeController.js:6-76 | like then unlike restores the whole database, apart from the id counter |
| `LikeController.FindLike` | controllers/likeController.js:16-19 | finds the pair's Like, or reports that there is none |
| `LikeController.LikePost` | controllers/likeController.js:6-40 | 404 for a missing post, 400 if already liked, both changing nothing; otherwise it succeeds with `Liked` and 201 |
| `LikeController.UnlikePost` | controllers/likeController.js:43-76 | 404 for a missing post, 400 if not liked, both changing nothing; otherwise it succeeds with `Unliked` |
| `LikeController.CheckLike` | controllers/likeController.js:79-93 | answers whether the pair has a Like, and changes nothing |
| `CommentController.CommentedPost` | controllers/commentController.js:42-43 | the comment goes first in the post's `comments`, and the counters are right |
| `CommentController.Commented` | controllers/commentController.js:29-43 | the database after `addComment`: a fresh top-level comment, listed first by its post |
| `CommentController.CommentedValid` | controllers/commentController.js:29-43 | a new comment keeps the database consistent, and the post counts one more comment |
| `CommentController.AddComment` | controllers/commentController.js:27-52 | 404 exactly when the post is missing, changing nothing; an existing post always gets a fresh top-level comment from `Commented`, with 201 |
| `CommentController.Replied` | controllers/commentController.js:59-74 | the database after `addReply`: a fresh comment on the parent's post, listed first by the parent |
| `CommentController.RepliedValid` | controllers/commentController.js:59-74 | a reply keeps the database consistent, is on its parent's post, and leaves every post alone |
| `CommentController.AddReply` | controllers/commentController.js:57-83 | 404 exactly when the parent is missing, changing nothing; an existing parent always gets a fresh reply from `Replied`, with 201 |
| `CommentController.AuthorizeCommentUpdate` | controllers/commentController.js:88-105 | 404 for a missing comment, 401 for another user's comment, and otherwise the update may go ahead |
| `CommentController.UncommentedPost` | controllers/commentController.js:144-147 | the comment leaves the post's `comments`, and the counters are right |
| `CommentController.WithoutComments` | controllers/commentController.js:158 | exactly the listed comments go |
| `CommentController.Unreplied` | controllers/commentController.js:149-155 | the parent, if it exists, stops listing the comment |
| `CommentController.PostSideDeleted` | controllers/commentController.js:143-147 | the database after the post side of a deletion |
| `CommentController.CommentDeleted` | controllers/commentController.js:143-161 | the database after a deletion that runs to the end |
| `CommentController.DeletedExactly` | controllers/commentController.js:157-161 | deletion removes exactly the comment and its direct replies |
| `CommentController.GrandchildSurvives` | controllers/commentController.js:157-161 | a reply to a deleted reply survives, and its parent then names a comment that is gone |
| `CommentController.PostSideDeletedShape` | controllers/commentController.js:143-147 | only the comment's post changes, and it no longer lists the comment |
| `CommentController.PostSideDeletedValid` | controllers/commentController.js:143-147 | the post-side edit keeps the database consistent |
| `CommentController.CommentDeletedValid` | controllers/commentController.js:143-161 | a deletion that runs to the end keeps the database consistent |
| `CommentController.DeleteComment` | controllers/commentController.js:124-170 | 404, 401, a 500 for a missing post (nothing changes), a 500 for a missing parent (post side already saved), else `CommentDeleted` |
| `PostController.CreatePost` | controllers/postController.js:6-24 | 401 without a user, 400 without content; otherwise it succeeds with a fresh post from `Created` and 201 |
| `PostController.UpdatedContent` | controllers/postController.js:68 | `req.body.content` when truthy, else the stored content, read through the getter and written back through the setter |
| `PostController.UpdatedContentKeepsOld` | controllers/postController.js:68 | empty content keeps the stored text exactly, and new content is stored through the setter |
| `PostController.UpdatePost` | controllers/postController.js:64-71 | a missing post or another owner gives 500; the owner's request succeeds, and only `content` changes |
| `PostController.DeletePost` | controllers/postController.js:73-103 | 401/404/403 change nothing; the owner's request succeeds and removes only the Post record |
| `AuthController.GenerateToken` | controllers/authController.js:6-8 | the token signs `{id}` with a 30-day expiry |
| `AuthController.SessionCookie` | controllers/authController.js:22-29 | the cookie holds the token for 30 days (2592000000 ms) |
| `AuthController.ViewOf` | controllers/authController.js:31-41 | the response user holds the id, name, username and token |
| `AuthController.ViewHidesPassword` | controllers/authController.js:31-41 | the response does not depend on the password |
| `AuthController.FindByUsername` | controllers/authController.js:13 | finds the user whose stored username equals the normalised query, or reports that none does |
| `AuthController.UsernameFree` | controllers/authController.js:13 | no stored username equals the query after the setters |
| `AuthController.MobileInUse` | models/User.js:29 | some user already has this mobile number |
| `AuthController.MobileTaken` | models/User.js:29 | true exactly when some user already has this mobile number |
| `AuthController.RegisteredValid` | controllers/authController.js:13-19 | a new user with an unused username and mobile number keeps the database consistent |
| `AuthController.InsertUser` | controllers/authController.js:19 | `User.create` of a user with empty arrays and an unused username and mobile number adds exactly that user under a fresh id and keeps the database consistent |
| `AuthController.Register` | controllers/authController.js:10-47 | 400 exactly when the username is taken; then 500 for invalid fields, and 500 E11000 for a taken mobile number; otherwise it succeeds with a new user, 201 and a session |
| `AuthController.Login` | controllers/authController.js:49-96 | 401 for an unknown user or a wrong password; a known user with a matching password gets 200 and their session; nothing changes |

A few members are helpers with no row: they define notation the contracts above use and promise
nothing of their own. `Strings.StartsWith` is `startsWith` (middlewares/auth.js:59). `Strings.OccursAt`
and `Strings.Contains` are `includes` (controllers/userController.js:364). `Strings.DigitChar` and
`Strings.Show` give the decimal text of an id in the error messages. `AuthMiddleware.SecondPiece`
and `LikeController.LikeOf` are proof steps and trigger terms.

## Left out

- Persistence, `populate`, `sort` and `select` are not modelled. Every handler is one atomic step, so
  the window between writes to two documents (a crash or a concurrent request in between) is not
  modelled either, and neither are unique-index races.
- The store model does not run `jwt.sign`, `jwt.verify`, `bcrypt.hash`, `bcrypt.compare`, the salt or
  `User.findById` in `protect`. They are oracle parameters.
- Cloudinary uploads, `destroy` and temp-file clean-up are not modelled. `destroy` appears only as the
  public id it would receive.
- Express routing, route order and the request/response objects are not modelled. An error is
  `Err(status, message)`, which merges a `res.status(...).json` answer with a thrown error.
- The text of Mongoose `ValidationError` and E11000 messages is reduced to fixed strings.
- The read-only handlers (`getUsers`, `getUser`, `getPosts`, `getPost`, searches, `getMe`) and
  `logout` are not modelled, because they keep nothing consistent.
- Regular-expression search is not modelled.
- `updateUser` and `updateProfile` are modelled only up to their checks and the old image's public id
  (`AuthorizeUserUpdate`, `OldImagePublicId`). Their generic `req.body` updates are not modelled.
- `updateComment` is modelled only up to its checks (`AuthorizeCommentUpdate`). `Comment.create`
  copies the whole request body. The model keeps only the fields the handler sets: user and post
  for `addComment`, and user, post and parent for `addReply`. The other body fields are not modelled.
- CommentController.AddComment: a request body carrying `parentComment`, `replies` or `_id` is not
  modelled. `Comment.create(req.body)` (controllers/commentController.js:40) would store them. A
  client-sent `replies` would let a later `deleteComment` (line 158) delete other users' comments, and
  a `parentComment` naming a comment on another post would break the same-post rule. `Commented`
  builds a top-level comment with no replies, as a body without those fields gives.
- Dates, timestamps and cookie expiry dates are not modelled.
- `Number` casting of `mobileNo` is not modelled: the number is kept as the string the validator sees.
- `String.length` counts UTF-16 code units. The model counts Dafny characters, and case mapping covers
  ASCII only.
- Ids are natural numbers, so a request cannot carry a malformed ObjectId. The CastError that
  `findById` raises for one, a 500, is not modelled in any handler.
- ObjectId casting of the `$or` identifier of `deleteUserAccount` is not modelled. As written, a
  username that is not a valid ObjectId most likely makes the whole query fail with a CastError, hence
  a 500. The model treats an identifier as either an id or a username and looks up by either.
- Whether `Document.remove` exists in the installed Mongoose version is not modelled. `DeleteUser`
  treats `user.remove()` (controllers/userController.js:166) as deleting the user, and
  `DeleteComment` treats `comment.remove()` (controllers/commentController.js:161) as deleting the
  comment.
- The `bio` and `location` validators are not modelled, because the only handlers that set those
  paths are the generic updates, which are left out.
- A request whose body lacks a field the handler reads is not modelled.
- models/Like.js and models/Comment.js are not part of this model. Their fields are those the controllers
  query and create.
- `AuthMiddleware.Protect`: the decoded payload is only its `id`; other claims are not modelled.

## Findings

| source | as written | input that shows it | evidently intended | confidence | as-written member | corrected member |
|---|---|---|---|---|---|---|
| controllers/userController.js:278 | `user.savedPosts.some(...)` reads a path the User schema does not declare, so it is undefined and the call throws | an existing user saving any existing post | `savedPosts` declared as an array of post ids, empty by default, and the post saved | not executed | `UserController.SavedPostsAsWritten` | `UserController.SavePost` |
| controllers/userController.js:304 | `user.savedPosts.some(...)` throws in the same way | an existing user unsaving any existing post | the post removed from the declared `savedPosts` | not executed | `UserController.SavedPostsAsWritten` | `UserController.UnsavePost` |
| controllers/userController.js:467 | `Like.deleteMany` names a module the file never imports, so a ReferenceError follows the image's destruction | the owner deleting their own account | `Like` and `Comment` imported, and the whole cascade run | not executed | `UserController.DeleteUserAccountAsWritten` | `UserController.DeleteUserAccount` |

The model follows the source where it departs from its design description. Account deletion by
`deleteUser` removes only the user and their posts, and leaves every other user's arrays with a dangling
id (`DeleteUserLeavesFollowers`). The `deleteUserAccount` cascade pulls only follow links. Other users'
saved posts, surviving posts' `likes` and `comments` arrays, and surviving comments' `replies` can keep
ids of documents it deleted (`SavedPostsDangle`, `LikeIdsDangle`, `CommentIdsDangle`, `ReplyIdsDangle`). `deletePost` removes only the Post record. `updatePost` answers 500 for a missing post and for
a post owned by someone else. The admin branch of the owner-or-admin checks can never be taken,
because `role` is not a schema path.
