/**
 * models/User.js: the User document, the casting setters (`trim`, `lowercase`) and validators its
 * schema declares, and the `pre('save')` password hook.
 */
module UserModel {
  import opened Base

  datatype User = User(
    name: string,
    username: string,
    password: string,         // the digest the save hook stored
    mobileNo: string,
    bio: Option<string>,
    location: Option<string>,
    posts: seq<PostId>,
    followers: seq<UserId>,
    following: seq<UserId>,
    savedPosts: seq<PostId>,  // not declared by the schema as written: see README, Findings
    profileImage: string)

  /** The paths the schema declares (with `_id` and the two timestamps Mongoose adds). */
  const SCHEMA_PATHS: set<string> := {
    "_id", "name", "username", "bio", "mobileNo", "password", "location", "posts",
    "followers", "following", "profileImage", "createdAt", "updatedAt"}

  /** What reading a path of a User document gives. `Other` stands for declared paths this model does not read. */
  datatype Value = Undefined | Text(text: string) | IdList(ids: seq<nat>) | Other

  /** `doc[path]` on a User document: a declared path reads its field, any other path reads as `undefined`. */
  function Get(u: User, path: string): (v: Value)
    ensures path !in SCHEMA_PATHS ==> v == Undefined
    ensures path in SCHEMA_PATHS ==> v != Undefined
  {
    if path == "name" then Text(u.name)
    else if path == "username" then Text(u.username)
    else if path == "password" then Text(u.password)
    else if path == "mobileNo" then Text(u.mobileNo)
    else if path == "profileImage" then Text(u.profileImage)
    else if path == "posts" then IdList(u.posts)
    else if path == "followers" then IdList(u.followers)
    else if path == "following" then IdList(u.following)
    else if path in SCHEMA_PATHS then Other
    else Undefined
  }

  /**
   * As written, `user.savedPosts` and `user.role` are `undefined` for every user, and the `savedPosts`
   * field of this model can be seen through no path at all.
   */
  lemma UndeclaredPaths(u: User, saved: seq<PostId>)
    ensures Get(u, "savedPosts") == Undefined && Get(u, "role") == Undefined
    ensures forall path :: Get(u.(savedPosts := saved), path) == Get(u, path)
  {
  }

  /** The default `profileImage`: a host path and a file name. */
  const DEFAULT_PROFILE_IMAGE: string :=
    "https://i.pinimg.com/236x/2c/47/d5/" + "2c47d5dd5b532f83bb55c4cd6f5bd1ef.jpg"

  const NAME_MAX := 50
  const USERNAME_MIN := 3
  const USERNAME_MAX := 20
  const PASSWORD_MIN := 6

  // ---- trim ----

  /** The characters `String.prototype.trim` strips: ECMAScript WhiteSpace and LineTerminator. */
  predicate IsSpace(c: char) {
    c == '\t' || c == '\U{000B}' || c == '\U{000C}' || c == ' ' || c == '\U{00A0}' || c == '\U{FEFF}' ||
    c == '\n' || c == '\r' || c == '\U{2028}' || c == '\U{2029}' ||
    c == '\U{1680}' || ('\U{2000}' <= c <= '\U{200A}') || c == '\U{202F}' || c == '\U{205F}' || c == '\U{3000}'
  }

  /** Leading white space removed: a suffix of `s` that starts with a non-space. */
  function TrimStart(s: string): (r: string)
    ensures |r| <= |s| && r == s[|s| - |r|..]
    ensures forall k :: 0 <= k < |s| - |r| ==> IsSpace(s[k])
    ensures r == [] || !IsSpace(r[0])
  {
    if s != [] && IsSpace(s[0]) then TrimStart(s[1..]) else s
  }

  /** Trailing white space removed: a prefix of `s` that ends with a non-space. */
  function TrimEnd(s: string): (r: string)
    ensures |r| <= |s| && r == s[..|r|]
    ensures forall k :: |r| <= k < |s| ==> IsSpace(s[k])
    ensures r == [] || !IsSpace(r[|r| - 1])
  {
    if s != [] && IsSpace(s[|s| - 1]) then TrimEnd(s[..|s| - 1]) else s
  }

  /** The `trim: true` setter. */
  function Trim(s: string): (r: string)
    ensures |r| <= |s|
    ensures r == [] || (!IsSpace(r[0]) && !IsSpace(r[|r| - 1]))
  {
    var t := TrimStart(s);
    var r := TrimEnd(t);
    assert r != [] ==> r[0] == t[0];
    r
  }

  lemma TrimNoOp(s: string)
    requires s == [] || (!IsSpace(s[0]) && !IsSpace(s[|s| - 1]))
    ensures Trim(s) == s
  {
  }

  /** Trimming twice is trimming once. */
  lemma TrimIdempotent(s: string)
    ensures Trim(Trim(s)) == Trim(s)
  {
    TrimNoOp(Trim(s));
  }

  // ---- lowercase ----

  /** `toLowerCase` on one character, for the ASCII letters. */
  function LowerChar(c: char): (d: char)
    ensures !('A' <= d <= 'Z')
    ensures IsSpace(d) <==> IsSpace(c)
  {
    if 'A' <= c <= 'Z' then (c as int + 32) as char else c
  }

  /** The `lowercase: true` setter (ASCII letters). */
  function Lower(s: string): (r: string)
    ensures |r| == |s|
    ensures forall i :: 0 <= i < |s| ==> r[i] == LowerChar(s[i])
    ensures forall i :: 0 <= i < |r| ==> !('A' <= r[i] <= 'Z')
  {
    if s == [] then [] else [LowerChar(s[0])] + Lower(s[1..])
  }

  lemma {:induction false} LowerIdempotent(s: string)
    ensures Lower(Lower(s)) == Lower(s)
  {
    forall i | 0 <= i < |s| ensures Lower(Lower(s))[i] == Lower(s)[i] {
      assert !('A' <= Lower(s)[i] <= 'Z');
    }
  }

  lemma {:induction false} LowerSlice(s: string, i: nat, j: nat)
    requires i <= j <= |s|
    ensures Lower(s[i..j]) == Lower(s)[i..j]
  {
    assert |Lower(s[i..j])| == j - i;
    forall k | 0 <= k < j - i ensures Lower(s[i..j])[k] == Lower(s)[i..j][k] {
      assert s[i..j][k] == s[i + k];
    }
  }

  lemma {:induction false} TrimStartLower(s: string)
    ensures TrimStart(Lower(s)) == Lower(TrimStart(s))
  {
    if s != [] {
      var ls := Lower(s);
      assert ls[0] == LowerChar(s[0]);
      if IsSpace(s[0]) {
        LowerSlice(s, 1, |s|);
        TrimStartLower(s[1..]);
      }
    }
  }

  lemma {:induction false} TrimEndLower(s: string)
    ensures TrimEnd(Lower(s)) == Lower(TrimEnd(s))
  {
    if s != [] {
      var ls := Lower(s);
      assert ls[|s| - 1] == LowerChar(s[|s| - 1]);
      if IsSpace(s[|s| - 1]) {
        LowerSlice(s, 0, |s| - 1);
        TrimEndLower(s[..|s| - 1]);
      }
    }
  }

  /** Lower-casing ASCII letters and trimming commute, so the order the setters run in does not matter. */
  lemma LowerTrimCommute(s: string)
    ensures Lower(Trim(s)) == Trim(Lower(s))
  {
    TrimStartLower(s);
    TrimEndLower(TrimStart(s));
  }

  /** What the two setters store for a username (trim runs first, as the schema lists it). */
  function NormalizeUsername(raw: string): string {
    Lower(Trim(raw))
  }

  // ---- validators ----

  /** `name`: required (an empty string fails) and at most 50 characters, after trimming. */
  predicate ValidName(raw: string) {
    1 <= |Trim(raw)| <= NAME_MAX
  }

  /** `username`: between 3 and 20 characters after trimming and lower-casing. */
  predicate ValidUsername(raw: string) {
    USERNAME_MIN <= |NormalizeUsername(raw)| <= USERNAME_MAX
  }

  /** `password`: required, at least 6 characters; it is not trimmed. */
  predicate ValidPassword(password: string) {
    |password| >= PASSWORD_MIN
  }

  predicate IsDigit(c: char) {
    '0' <= c <= '9'
  }

  predicate AllDigits(s: string) {
    forall k :: 0 <= k < |s| ==> IsDigit(s[k])
  }

  /** The mobile-number validator, `/^\+?[1-9]\d{1,14}$/`, read off position by position. */
  predicate ValidMobile(s: string) {
    var body := if |s| > 0 && s[0] == '+' then s[1..] else s;
    2 <= |body| <= 15 && '1' <= body[0] <= '9' && AllDigits(body[1..])
  }

  /** `s` is the concatenation of the regular expression's three parts. */
  predicate MobileParts(s: string, plus: string, lead: char, rest: string) {
    (plus == "" || plus == "+") && '1' <= lead <= '9' && 1 <= |rest| <= 14 && AllDigits(rest) &&
    s == plus + [lead] + rest
  }

  /** The validator accepts exactly an optional `+`, a digit 1-9, then 1 to 14 further digits. */
  lemma MobileMatchesRegex(s: string)
    ensures ValidMobile(s) <==> exists plus, lead, rest :: MobileParts(s, plus, lead, rest)
  {
    if ValidMobile(s) {
      var plus := if |s| > 0 && s[0] == '+' then "+" else "";
      var body := s[|plus|..];
      assert s == plus + [body[0]] + body[1..];
      assert MobileParts(s, plus, body[0], body[1..]);
    }
    if exists plus, lead, rest :: MobileParts(s, plus, lead, rest) {
      var plus, lead, rest :| MobileParts(s, plus, lead, rest);
      if plus == "+" {
        assert s[0] == '+' && s[1..] == [lead] + rest;
      } else {
        assert s == [lead] + rest;
      }
      assert ([lead] + rest)[1..] == rest;
    }
  }

  /** Every field the schema validates, for a document created from these inputs. */
  predicate ValidNewUser(name: string, username: string, password: string, mobileNo: string) {
    ValidName(name) && ValidUsername(username) && ValidPassword(password) && ValidMobile(mobileNo)
  }

  /** A username that passed validation is stored trimmed, lower-cased, and 3 to 20 characters long. */
  lemma StoredUsername(raw: string)
    requires ValidUsername(raw)
    ensures var u := NormalizeUsername(raw);
      USERNAME_MIN <= |u| <= USERNAME_MAX && Trim(u) == u && Lower(u) == u
  {
    var t := Trim(raw);
    var u := Lower(t);
    assert !IsSpace(u[0]) && !IsSpace(u[|u| - 1]) by {
      assert u[0] == LowerChar(t[0]) && u[|u| - 1] == LowerChar(t[|t| - 1]);
    }
    TrimNoOp(u);
    LowerIdempotent(t);
  }

  /** A name that passed validation is stored trimmed, non-empty and at most 50 characters long. */
  lemma StoredName(raw: string)
    requires ValidName(raw)
    ensures var n := Trim(raw); 1 <= |n| <= NAME_MAX && Trim(n) == n
  {
    TrimIdempotent(raw);
  }

  // ---- pre('save') ----

  /** The save hook: the password is re-hashed exactly when the document marks it modified. */
  function PasswordOnSave(stored: string, modified: bool, digest: string): (r: string)
    ensures !modified ==> r == stored
    ensures modified ==> r == digest
  {
    if modified then digest else stored
  }

  /**
   * Whether a handler's edit marks the password as modified. The handlers in this model never assign
   * the path, so this is a change of the stored value.
   */
  predicate PasswordModified(before: User, after: User) {
    before.password != after.password
  }

  /** A freshly created user: schema defaults for every field the request does not set. */
  function NewUser(name: string, username: string, password: string, digest: string, mobileNo: string): (u: User)
    ensures u.name == Trim(name) && u.username == NormalizeUsername(username)
    ensures u.password == digest && u.mobileNo == mobileNo
    ensures u.bio == None && u.location == None && u.profileImage == DEFAULT_PROFILE_IMAGE
    ensures u.posts == [] && u.followers == [] && u.following == [] && u.savedPosts == []
  {
    // A new document has every path modified, so the hook replaces the plain password by its digest.
    User(Trim(name), NormalizeUsername(username), PasswordOnSave(password, true, digest), mobileNo,
         None, None, [], [], [], [], DEFAULT_PROFILE_IMAGE)
  }
}
