/**
 * controllers/authController.js: registration and login. Signing (`jwt.sign`), hashing (`bcrypt.hash`)
 * and comparing (`bcrypt.compare`) are oracles handed in as functions.
 */
module AuthController {
  import opened Base
  import opened UserModel
  import opened SocialGraph

  const USER_EXISTS := "User already exists"
  const INVALID_CREDENTIALS := "Invalid credentials"

  /** A schema validator rejected the new document (a `ValidationError`; its text lists the failing paths). */
  const VALIDATION_FAILED := "User validation failed"

  /** The unique index on `mobileNo` rejected the insert. */
  const DUPLICATE_KEY := "E11000 duplicate key error"

  /** The `expiresIn` option of `generateToken`. */
  const TOKEN_EXPIRES_IN := "30d"

  /** The token payload with its signing options: `{ id }`, valid for 30 days. */
  datatype Claims = Claims(id: UserId, expiresIn: string)

  /** `generateToken(id)`, lines 6-8. */
  function GenerateToken(sign: Claims -> string, id: UserId): (token: string)
    ensures token == sign(Claims(id, "30d"))
  {
    sign(Claims(id, TOKEN_EXPIRES_IN))
  }

  /** The cookie of lines 22-29 and 65-73: the token, kept for 30 days. */
  function SessionCookie(token: string): (c: Cookie)
    ensures c.token == token
    ensures c.maxAgeMs == 2592000000
  {
    Cookie(token, 30 * 24 * 60 * 60 * 1000)
  }

  /** The `userResponse` object of lines 31-41 and 76-86. */
  function ViewOf(id: UserId, u: User, token: string): (v: UserView)
    ensures v.id == id && v.token == token && v.username == u.username && v.name == u.name
  {
    UserView(id, u.name, u.username, u.mobileNo, u.followers, u.following, u.profileImage, token)
  }

  /** The response carries no password: two users that differ only in it give the same response. */
  lemma ViewHidesPassword(id: UserId, u: User, other: string, token: string)
    ensures ViewOf(id, u, token) == ViewOf(id, u.(password := other), token)
  {
  }

  /** `User.findOne({ username })`: a user whose stored name equals the query after the schema's setters. */
  ghost predicate NamedUser(users: map<UserId, User>, username: string, id: UserId) {
    id in users && users[id].username == NormalizeUsername(username)
  }

  method FindByUsername(store: Store, username: string) returns (found: Option<UserId>)
    ensures found.Some? ==> NamedUser(store.users, username, found.value)
    ensures found.None? ==> forall id :: !NamedUser(store.users, username, id)
  {
    var key := NormalizeUsername(username);
    if exists id :: id in store.users && store.users[id].username == key {
      var id :| id in store.users && store.users[id].username == key;
      found := Some(id);
    } else {
      found := None;
    }
  }

  /** No stored username equals the query after the setters. */
  ghost predicate UsernameFree(users: map<UserId, User>, username: string) {
    forall id :: !NamedUser(users, username, id)
  }

  /** Some user already has this mobile number. */
  ghost predicate MobileInUse(users: map<UserId, User>, mobileNo: string) {
    exists id :: id in users && users[id].mobileNo == mobileNo
  }

  /** Whether some user already has this mobile number. */
  method MobileTaken(store: Store, mobileNo: string) returns (taken: bool)
    ensures taken <==> MobileInUse(store.users, mobileNo)
  {
    taken := exists id :: id in store.users && store.users[id].mobileNo == mobileNo;
  }

  /** A new user whose username and mobile number are both unused keeps the database consistent. */
  lemma RegisteredValid(d: Db, u: User)
    requires DbValid(d)
    requires u.followers == [] && u.following == [] && u.savedPosts == [] && u.posts == []
    requires forall id :: id in d.users ==> d.users[id].username != u.username && d.users[id].mobileNo != u.mobileNo
    ensures DbValid(d.(users := d.users[d.nextId := u], nextId := d.nextId + 1))
  {
    var n := d.nextId;
    ValidGrow(d.users, d.posts, d.likes, d.comments, n, n + 1);
    var users := d.users[n := u];
    assert UserOk(n, u, n + 1);
    forall a, b | a in users && b in users ensures b in users[a].following <==> a in users[b].followers {
      if a != n && b != n {
        assert b in d.users[a].following <==> a in d.users[b].followers;
      } else if a == n && b != n {
        assert UserOk(b, d.users[b], n);
      } else if a != n && b == n {
        assert UserOk(a, d.users[a], n);
      }
    }
    forall a, b | a in users && b in users && users[a].username == users[b].username ensures a == b {
      if a != n && b != n { assert d.users[a].username == d.users[b].username; }
    }
    forall a, b | a in users && b in users && users[a].mobileNo == users[b].mobileNo ensures a == b {
      if a != n && b != n { assert d.users[a].mobileNo == d.users[b].mobileNo; }
    }
  }

  /** `User.create` of a document whose unique fields are unused: it goes in under a fresh id. */
  method InsertUser(store: Store, u: User) returns (id: UserId)
    requires store.Valid()
    requires u.followers == [] && u.following == [] && u.savedPosts == [] && u.posts == []
    requires forall k :: k in store.users ==> store.users[k].username != u.username && store.users[k].mobileNo != u.mobileNo
    modifies store
    ensures store.Valid()
    ensures id == old(store.nextId)
    ensures store.Contents() == old(store.Contents()).(users := old(store.users)[id := u], nextId := id + 1)
  {
    RegisteredValid(store.Contents(), u);
    id := store.NewId();
    store.users := store.users[id := u];
  }

  /**
   * `register`, lines 10-47. `digest` is what the save hook's `bcrypt.hash` returns for the password;
   * validation runs before the hook, so the length check sees the plain password.
   */
  method Register(store: Store, name: string, username: string, password: string, mobileNo: string,
                  digest: string, sign: Claims -> string) returns (res: Response)
    requires store.Valid()
    modifies store
    ensures store.Valid()
    ensures !UsernameFree(old(store.users), username) ==> res == Err(400, USER_EXISTS)
    ensures res.Err? && res.status == 400 ==> !UsernameFree(old(store.users), username)
    ensures UsernameFree(old(store.users), username) && !ValidNewUser(name, username, password, mobileNo) ==>
      res == Err(500, VALIDATION_FAILED)
    ensures UsernameFree(old(store.users), username) && ValidNewUser(name, username, password, mobileNo) &&
            MobileInUse(old(store.users), mobileNo) ==>
      res == Err(500, DUPLICATE_KEY)
    ensures UsernameFree(old(store.users), username) && ValidNewUser(name, username, password, mobileNo) &&
            !MobileInUse(old(store.users), mobileNo) ==>
      res.Ok?
    ensures res.Err? ==> store.Contents() == old(store.Contents())
    ensures res.Ok? ==>
      && UsernameFree(old(store.users), username)
      && !MobileInUse(old(store.users), mobileNo)
      && ValidNewUser(name, username, password, mobileNo)
      && var id := old(store.nextId);
      && var u := NewUser(name, username, password, digest, mobileNo);
      && store.Contents() == old(store.Contents()).(users := old(store.users)[id := u], nextId := id + 1)
      && var token := GenerateToken(sign, id);
      && res == Ok(201, Session(ViewOf(id, u, token), SessionCookie(token)))
  {
    var userExists := FindByUsername(store, username);
    if userExists.Some? {
      return Err(400, USER_EXISTS);
    }
    if !ValidNewUser(name, username, password, mobileNo) {
      return Err(500, VALIDATION_FAILED);
    }
    var taken := MobileTaken(store, mobileNo);
    if taken {
      return Err(500, DUPLICATE_KEY);
    }
    var user := NewUser(name, username, password, digest, mobileNo);
    forall id | id in store.users ensures store.users[id].username != user.username && store.users[id].mobileNo != mobileNo {
      assert !NamedUser(store.users, username, id);
    }
    var id := InsertUser(store, user);
    var token := GenerateToken(sign, id);
    res := Ok(201, Session(ViewOf(id, user, token), SessionCookie(token)));
  }

  /** `login`, lines 49-96. `matches(entered, digest)` is `bcrypt.compare`. Nothing changes. */
  method Login(store: Store, username: string, password: string,
               matches: (string, string) -> bool, sign: Claims -> string) returns (res: Response)
    requires store.Valid()
    ensures (forall id :: !NamedUser(store.users, username, id)) ==> res == Err(401, INVALID_CREDENTIALS)
    ensures forall id :: NamedUser(store.users, username, id) && !matches(password, store.users[id].password) ==>
      res == Err(401, INVALID_CREDENTIALS)
    ensures res.Err? ==> res == Err(401, INVALID_CREDENTIALS)
    ensures (exists id :: NamedUser(store.users, username, id) && matches(password, store.users[id].password)) ==> res.Ok?
    ensures res.Ok? ==> exists id :: (NamedUser(store.users, username, id) && matches(password, store.users[id].password) &&
      var token := GenerateToken(sign, id);
      res == Ok(200, Session(ViewOf(id, store.users[id], token), SessionCookie(token))))
  {
    var found := FindByUsername(store, username);
    if found.None? {
      return Err(401, INVALID_CREDENTIALS);
    }
    var id := found.value;
    var user := store.users[id];
    assert forall other :: NamedUser(store.users, username, other) ==> other == id;
    if matches(password, user.password) {
      var token := GenerateToken(sign, id);
      res := Ok(200, Session(ViewOf(id, user, token), SessionCookie(token)));
    } else {
      res := Err(401, INVALID_CREDENTIALS);
    }
  }
}
