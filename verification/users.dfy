/**
  The decisions of the user service (user.py) with Flask, the database and
  the JWT library taken out: the table is a sequence of rows, SHA-512 is an
  uninterpreted `hash` of `password + salt`, and generated ids, salts and
  times are parameters.
*/
module Users {
  import opened Wrappers
  import opened JsonValue
  import opened Email
  import opened Http

  /** A row of `wg_user`. `phone` and `company` hold whatever JSON the sign-up body carried. */
  datatype User = User(
    wguserId: string,
    username: string,
    email: string,
    passwordSalt: string,
    passwordHash: string,
    phone: Json,
    company: Json)

  const USER_JSON_KEYS: set<string> :=
    {"wguser_id", "username", "email", "password_salt", "password_hash", "phone", "company"}

  /** `User.json`: every column under its own name, except that
      `password_salt` carries the password hash, as the source writes it. */
  function ToJson(u: User): (m: Record)
    ensures m.Keys == USER_JSON_KEYS
  {
    map[
      "wguser_id" := Str(u.wguserId),
      "username" := Str(u.username),
      "email" := Str(u.email),
      "password_salt" := Str(u.passwordHash),
      "password_hash" := Str(u.passwordHash),
      "phone" := u.phone,
      "company" := u.company]
  }

  /** Reads a user back from its JSON form; the salt is not in it and must be supplied. */
  function FromJson(m: Record, salt: string): Option<User>
  {
    if && "wguser_id" in m && m["wguser_id"].Str?
       && "username" in m && m["username"].Str?
       && "email" in m && m["email"].Str?
       && "password_hash" in m && m["password_hash"].Str?
       && "phone" in m && "company" in m
    then Some(User(m["wguser_id"].s, m["username"].s, m["email"].s, salt, m["password_hash"].s, m["phone"], m["company"]))
    else None
  }

  /** The JSON form keeps every column except the salt: given the salt back, it reads back to the same user. */
  lemma JsonRoundTrip(u: User)
    ensures FromJson(ToJson(u), u.passwordSalt) == Some(u)
  {
  }

  /** The JSON form never reveals the salt: users differing only in their
      salt serialise identically, and both password keys hold the hash. */
  lemma JsonHidesSalt(u: User, salt: string)
    ensures ToJson(u.(passwordSalt := salt)) == ToJson(u)
    ensures ToJson(u)["password_salt"] == ToJson(u)["password_hash"] == Str(u.passwordHash)
  {
  }

  /** The two lookups the service makes: `filter_by(username=...)` and `filter_by(email=...)`. */
  datatype Query = ByUsername(name: string) | ByEmail(address: string)

  predicate Selects(q: Query, u: User)
  {
    match q
    case ByUsername(name) => u.username == name
    case ByEmail(address) => u.email == address
  }

  /** `.first()` of a query: the first selected row in table order, or None. */
  function Find(db: seq<User>, q: Query): (r: Option<User>)
    ensures r.None? <==> forall i :: 0 <= i < |db| ==> !Selects(q, db[i])
    ensures r.Some? ==> exists i :: 0 <= i < |db| && db[i] == r.value && Selects(q, db[i]) &&
                                    (forall j :: 0 <= j < i ==> !Selects(q, db[j]))
  {
    if |db| == 0 then None
    else if Selects(q, db[0]) then Some(db[0])
    else
      var r := Find(db[1..], q);
      assert forall i :: 1 <= i < |db| ==> db[i] == db[1..][i - 1];
      r
  }

  const USERNAME_TAKEN: Response := Reply(404, 401, "username already taken")

  /** `validate_username`: an error response exactly when some row already has
      the username (its envelope says 401, its HTTP status is 404). */
  function ValidateUsername(db: seq<User>, username: string): (r: Option<Response>)
    ensures r.Some? <==> exists i :: 0 <= i < |db| && db[i].username == username
    ensures r.Some? ==> r.value == USERNAME_TAKEN
  {
    if Find(db, ByUsername(username)).Some? then Some(USERNAME_TAKEN) else None
  }

  /** What the commit of a new row does in the database. */
  datatype CommitOutcome = Committed | IntegrityViolation | OtherFailure

  /** A sign-up's response, the table after it, and the row it tried to insert, if it got that far. */
  datatype SignUpResult = SignUpResult(response: Response, db: seq<User>, attempted: Option<User>)

  const SIGN_UP_KEYS: set<string> := {"username", "email", "password", "phone", "company"}

  /** The body fields sign-up reads are all present, and the three it treats as text are strings. */
  predicate SignUpBodyReadable(payload: Json)
  {
    && payload.Obj?
    && SIGN_UP_KEYS <= payload.fields.Keys
    && payload.fields["username"].Str?
    && payload.fields["email"].Str?
    && payload.fields["password"].Str?
  }

  /** The body has every field sign-up reads, and its username is a string:
      enough for the username check at the head of sign-up. */
  predicate SignUpUsernameReadable(payload: Json)
  {
    payload.Obj? && SIGN_UP_KEYS <= payload.fields.Keys && payload.fields["username"].Str?
  }

  /** `sign_up`. Reading the body, checking the username and hashing all run
      outside the view's try block, so a missing field ends in Flask's error
      page; only the commit's failures are turned into envelopes. A taken
      username is answered whatever the other fields hold. */
  function SignUp(db: seq<User>, payload: Json, salt: string, newId: string,
                  hash: string -> string, commit: User -> CommitOutcome): (r: SignUpResult)
    ensures r.response.status in {201, 404, 500}
    ensures r.response.status == 201 ==>
      && SignUpBodyReadable(payload)
      && r.attempted.Some?
      && r.db == db + [r.attempted.value]
    ensures r.response.status != 201 ==> r.db == db
    ensures r.attempted.Some? ==>
      && SignUpBodyReadable(payload)
      && forall i :: 0 <= i < |db| ==> db[i].username != payload.fields["username"].s
  {
    if !payload.Obj? || !(SIGN_UP_KEYS <= payload.fields.Keys) then SignUpResult(UncaughtError, db, None)
    else
      var f := payload.fields;
      if !f["username"].Str? then SignUpResult(UncaughtError, db, None)
      else
        match ValidateUsername(db, f["username"].s)
        case Some(taken) => SignUpResult(taken, db, None)
        case None =>
          if !f["email"].Str? || !f["password"].Str? then SignUpResult(UncaughtError, db, None)
          else
            var user := User(newId, f["username"].s, f["email"].s, salt, hash(f["password"].s + salt), f["phone"], f["company"]);
            match commit(user)
            case Committed => SignUpResult(Reply(201, 201, "Create user success"), db + [user], Some(user))
            case IntegrityViolation => SignUpResult(Reply(500, 500, "Duplicate entry"), db, Some(user))
            case OtherFailure => SignUpResult(Reply(500, 500, "Create user unsuccessful"), db, Some(user))
  }

  /** A taken username is answered before any insert, whatever the email and
      password fields hold; for a fully readable body, sign-up tries an insert
      exactly when no row has the username yet. */
  lemma SignUpRejectsTakenUsername(db: seq<User>, payload: Json, salt: string, newId: string,
                                   hash: string -> string, commit: User -> CommitOutcome)
    requires SignUpUsernameReadable(payload)
    ensures var r := SignUp(db, payload, salt, newId, hash, commit);
      var taken := exists i :: 0 <= i < |db| && db[i].username == payload.fields["username"].s;
      && (taken ==> r.response == USERNAME_TAKEN && r.db == db && r.attempted.None?)
      && (SignUpBodyReadable(payload) ==> (r.attempted.Some? <==> !taken))
  {
  }

  /** The table changes only on a successful commit, and then gains exactly the
      attempted row, which stores the salt and `hash(password + salt)`. */
  lemma SignUpAddsOnlyCommittedRow(db: seq<User>, payload: Json, salt: string, newId: string,
                                   hash: string -> string, commit: User -> CommitOutcome)
    ensures var r := SignUp(db, payload, salt, newId, hash, commit);
      && (r.db == db || (r.attempted.Some? && r.db == db + [r.attempted.value]))
      && (r.db != db <==> r.response.status == 201)
      && (r.attempted.Some? ==>
            && SignUpBodyReadable(payload)
            && r.attempted.value.username == payload.fields["username"].s
            && r.attempted.value.passwordSalt == salt
            && r.attempted.value.passwordHash == hash(payload.fields["password"].s + salt)
            && (r.response.status == 201 <==> commit(r.attempted.value) == Committed))
  {
  }

  /** A sign-in's response and the lookup it made, if it got that far. */
  datatype SignInResult = SignInResult(response: Response, query: Option<Query>)

  const LOGIN_FAILED: Response := Reply(500, 500, "Error: Failed to login")

  /** The lookup sign-in makes for a given `username` field. */
  function SignInQuery(name: string): (q: Query)
    ensures q.ByEmail? <==> MatchesPattern(name)
    ensures q == ByEmail(name) || q == ByUsername(name)
  {
    if IsEmail(name) then ByEmail(name) else ByUsername(name)
  }

  /** `sign_in`. Everything runs inside a try block whose handler answers 500,
      so a missing field or a non-string value ends there. */
  function SignIn(db: seq<User>, payload: Json, hash: string -> string, now: int, csrf: string): (r: SignInResult)
    ensures r.response.status in {200, 401, 404, 500}
    ensures r.response.status == 500 ==> r.response == LOGIN_FAILED
    ensures SignInBodyReadable(payload) ==> r.response.status != 500
    ensures r.response.status == 200 ==>
      && SignInBodyReadable(payload)
      && r.query.Some?
      && Find(db, r.query.value).Some?
      && Find(db, r.query.value).value.passwordHash
           == hash(payload.fields["password"].s + Find(db, r.query.value).value.passwordSalt)
  {
    if !payload.Obj? || "password" !in payload.fields || "username" !in payload.fields then SignInResult(LOGIN_FAILED, None)
    else
      var name := payload.fields["username"];
      if !name.Str? then SignInResult(LOGIN_FAILED, None)
      else
        var q := SignInQuery(name.s);
        match Find(db, q)
        case None => SignInResult(Reply(404, 404, "User not found"), Some(q))
        case Some(user) =>
          var password := payload.fields["password"];
          if !password.Str? then SignInResult(LOGIN_FAILED, Some(q))
          else if user.passwordHash != hash(password.s + user.passwordSalt) then
            SignInResult(Reply(401, 401, "Wrong password"), Some(q))
          else
            var token := CreateAccessToken(user.username, now, csrf);
            SignInResult(Response(200, Envelope(200, "login success"), Some(token)), Some(q))
  }

  /** Both sign-in fields are present and strings. */
  predicate SignInBodyReadable(payload: Json)
  {
    && payload.Obj?
    && "username" in payload.fields && payload.fields["username"].Str?
    && "password" in payload.fields && payload.fields["password"].Str?
  }

  /** Sign-in queries the table exactly when the `username` field is a string
      and `password` is present, and it looks the user up by email exactly
      when that string is an email address, otherwise by username. */
  lemma SignInLookup(db: seq<User>, payload: Json, hash: string -> string, now: int, csrf: string)
    ensures var r := SignIn(db, payload, hash, now, csrf);
      && (r.query.Some? <==>
            payload.Obj? && "password" in payload.fields && "username" in payload.fields && payload.fields["username"].Str?)
      && (r.query.Some? ==>
            var name := payload.fields["username"].s;
            && (r.query.value.ByEmail? <==> IsEmail(name))
            && r.query.value == (if IsEmail(name) then ByEmail(name) else ByUsername(name)))
  {
  }

  /** For a readable body: no matching row gives 404; a row whose stored hash
      differs from `hash(password + salt)` gives 401; equality gives 200, and
      that is the only outcome that sets an access token, issued for the
      row's username. */
  lemma SignInOutcome(db: seq<User>, payload: Json, hash: string -> string, now: int, csrf: string)
    requires SignInBodyReadable(payload)
    ensures var r := SignIn(db, payload, hash, now, csrf);
      var found := Find(db, SignInQuery(payload.fields["username"].s));
      var password := payload.fields["password"].s;
      && (r.response.status == 404 <==> found.None?)
      && (r.response.status == 401 <==> found.Some? && found.value.passwordHash != hash(password + found.value.passwordSalt))
      && (r.response.status == 200 <==> found.Some? && found.value.passwordHash == hash(password + found.value.passwordSalt))
      && (r.response.status == 200 ==> r.response.accessCookie == Some(CreateAccessToken(found.value.username, now, csrf)))
  {
  }

  /** Whatever the body, an access token is set only by a 200 response. */
  lemma OnlySuccessfulSignInSetsToken(db: seq<User>, payload: Json, hash: string -> string, now: int, csrf: string)
    ensures var r := SignIn(db, payload, hash, now, csrf);
      r.response.accessCookie.Some? <==> r.response.status == 200
  {
  }

  /** A user who has just signed up can sign in with the same password under
      a username that is not shaped like an email address (one that is would
      be looked up by email instead). */
  lemma SignUpThenSignIn(db: seq<User>, payload: Json, salt: string, newId: string,
                         hash: string -> string, commit: User -> CommitOutcome, now: int, csrf: string)
    requires SignUpBodyReadable(payload)
    requires SignUp(db, payload, salt, newId, hash, commit).response.status == 201
    requires !IsEmail(payload.fields["username"].s)
    ensures var after := SignUp(db, payload, salt, newId, hash, commit).db;
      var login := Obj(map["username" := payload.fields["username"], "password" := payload.fields["password"]]);
      var r := SignIn(after, login, hash, now, csrf);
      r.response.status == 200 &&
      r.response.accessCookie == Some(CreateAccessToken(payload.fields["username"].s, now, csrf))
  {
    var name := payload.fields["username"].s;
    var r := SignUp(db, payload, salt, newId, hash, commit);
    var user := r.attempted.value;
    assert r.db == db + [user];
    assert forall i :: 0 <= i < |db| ==> db[i].username != name;
    FindAfterAppend(db, user, ByUsername(name));
  }

  /** Sign-in looks an email-shaped name up by email only, so a user whose
      username is shaped like an email address, and whose email differs from
      it, is not found by signing in with that username: sign-up accepted
      the name, sign-in answers 404. */
  lemma EmailShapedUsernameNotFound(db: seq<User>, payload: Json, salt: string, newId: string,
                                    hash: string -> string, commit: User -> CommitOutcome, now: int, csrf: string)
    requires SignUpBodyReadable(payload)
    requires SignUp(db, payload, salt, newId, hash, commit).response.status == 201
    requires IsEmail(payload.fields["username"].s)
    requires payload.fields["email"].s != payload.fields["username"].s
    requires forall i :: 0 <= i < |db| ==> db[i].email != payload.fields["username"].s
    ensures var after := SignUp(db, payload, salt, newId, hash, commit).db;
      var login := Obj(map["username" := payload.fields["username"], "password" := payload.fields["password"]]);
      SignIn(after, login, hash, now, csrf).response.status == 404
  {
    var name := payload.fields["username"].s;
    var r := SignUp(db, payload, salt, newId, hash, commit);
    var after := r.db;
    assert after == db + [r.attempted.value];
    assert forall i :: 0 <= i < |after| ==> !Selects(ByEmail(name), after[i]) by {
      forall i | 0 <= i < |after|
        ensures !Selects(ByEmail(name), after[i])
      {
        if i < |db| { assert after[i] == db[i]; }
      }
    }
  }

  /** The concrete case: into an empty table, username `a@b.co` with email
      `x@y.co` signs up with 201 and then cannot sign in under that name. */
  lemma EmailShapedUsernameExample(hash: string -> string, now: int, csrf: string)
    ensures var payload := Obj(map["username" := Str("a@b.co"), "email" := Str("x@y.co"),
                                   "password" := Str("pw"), "phone" := Null, "company" := Null]);
      var up := SignUp([], payload, "salt", "id", hash, (u: User) => Committed);
      var login := Obj(map["username" := Str("a@b.co"), "password" := Str("pw")]);
      && up.response.status == 201
      && SignIn(up.db, login, hash, now, csrf).response.status == 404
  {
    var payload := Obj(map["username" := Str("a@b.co"), "email" := Str("x@y.co"),
                           "password" := Str("pw"), "phone" := Null, "company" := Null]);
    assert MatchesAt("a@b.co", 1, 3);
    assert "x@y.co" != "a@b.co" by { assert "x@y.co"[0] != "a@b.co"[0]; }
    EmailShapedUsernameNotFound([], payload, "salt", "id", hash, (u: User) => Committed, now, csrf);
  }

  /** A name that is not shaped like an email address and that no row has
      as its username is not found by sign-in, whatever emails the rows hold. */
  lemma PlainNameWithoutRowNotFound(db: seq<User>, name: string, password: string,
                                    hash: string -> string, now: int, csrf: string)
    requires !IsEmail(name)
    requires forall i :: 0 <= i < |db| ==> db[i].username != name
    ensures SignIn(db, Obj(map["username" := Str(name), "password" := Str(password)]), hash, now, csrf).response.status == 404
  {
    assert Find(db, ByUsername(name)).None?;
  }

  /** A string without `@` is not shaped like an email address. */
  lemma NoAtIsNotEmail(s: string)
    requires forall k :: 0 <= k < |s| ==> s[k] != '@'
    ensures !IsEmail(s)
  {
  }

  /** When the stored email is not itself shaped like an email address, such
      a user cannot sign in under either name: username `a@b.co` with email
      `foo` signs up with 201, and signing in as `a@b.co` or as `foo` gives 404. */
  lemma EmailShapedUsernameLockedOut(hash: string -> string, now: int, csrf: string)
    ensures var payload := Obj(map["username" := Str("a@b.co"), "email" := Str("foo"),
                                   "password" := Str("pw"), "phone" := Null, "company" := Null]);
      var up := SignUp([], payload, "salt", "id", hash, (u: User) => Committed);
      && up.response.status == 201
      && SignIn(up.db, Obj(map["username" := Str("a@b.co"), "password" := Str("pw")]), hash, now, csrf).response.status == 404
      && SignIn(up.db, Obj(map["username" := Str("foo"), "password" := Str("pw")]), hash, now, csrf).response.status == 404
  {
    var payload := Obj(map["username" := Str("a@b.co"), "email" := Str("foo"),
                           "password" := Str("pw"), "phone" := Null, "company" := Null]);
    assert MatchesAt("a@b.co", 1, 3);
    assert "foo" != "a@b.co" by { assert "foo"[0] != "a@b.co"[0]; }
    EmailShapedUsernameNotFound([], payload, "salt", "id", hash, (u: User) => Committed, now, csrf);
    var up := SignUp([], payload, "salt", "id", hash, (u: User) => Committed);
    NoAtIsNotEmail("foo");
    PlainNameWithoutRowNotFound(up.db, "foo", "pw", hash, now, csrf);
  }

  /** The answer of the corrected sign-up to a username shaped like an email address. */
  const USERNAME_IS_EMAIL: Response := Reply(400, 400, "username must not be an email address")

  /** Sign-up corrected so that every name it accepts can sign in: a username
      shaped like an email address is refused before anything else is checked,
      since sign-in would look it up by email. */
  function GuardedSignUp(db: seq<User>, payload: Json, salt: string, newId: string,
                         hash: string -> string, commit: User -> CommitOutcome): (r: SignUpResult)
    ensures r.response == USERNAME_IS_EMAIL <==>
      payload.Obj? && "username" in payload.fields && payload.fields["username"].Str?
      && MatchesPattern(payload.fields["username"].s)
    ensures r.response != USERNAME_IS_EMAIL ==> r == SignUp(db, payload, salt, newId, hash, commit)
    ensures r.response.status == 201 ==>
      && SignUpBodyReadable(payload)
      && !MatchesPattern(payload.fields["username"].s)
      && r == SignUp(db, payload, salt, newId, hash, commit)
  {
    if payload.Obj? && "username" in payload.fields && payload.fields["username"].Str?
       && IsEmail(payload.fields["username"].s)
    then SignUpResult(USERNAME_IS_EMAIL, db, None)
    else SignUp(db, payload, salt, newId, hash, commit)
  }

  /** Under the corrected sign-up, every user who signs up can sign in with
      the same username and password. */
  lemma GuardedSignUpThenSignIn(db: seq<User>, payload: Json, salt: string, newId: string,
                                hash: string -> string, commit: User -> CommitOutcome, now: int, csrf: string)
    requires GuardedSignUp(db, payload, salt, newId, hash, commit).response.status == 201
    ensures SignUpBodyReadable(payload)
    ensures var after := GuardedSignUp(db, payload, salt, newId, hash, commit).db;
      var login := Obj(map["username" := payload.fields["username"], "password" := payload.fields["password"]]);
      var r := SignIn(after, login, hash, now, csrf);
      r.response.status == 200 &&
      r.response.accessCookie == Some(CreateAccessToken(payload.fields["username"].s, now, csrf))
  {
    SignUpThenSignIn(db, payload, salt, newId, hash, commit, now, csrf);
  }

  /** A query no existing row answers finds a row appended after them. */
  lemma FindAfterAppend(db: seq<User>, u: User, q: Query)
    requires forall i :: 0 <= i < |db| ==> !Selects(q, db[i])
    requires Selects(q, u)
    ensures Find(db + [u], q) == Some(u)
  {
    var all := db + [u];
    var r := Find(all, q);
    assert Selects(q, all[|db|]);
    assert forall j :: 0 <= j < |db| ==> all[j] == db[j];
  }
}
