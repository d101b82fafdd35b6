/**
 * The user routes: register, login, get-me, profile update and password change,
 * over the `user` collection. bcrypt is `Bcrypt`, `validator.isEmail` is the
 * store's opaque `isEmail`, and the clock is the `now` parameter (seconds).
 */
module UserController {
  import opened Wrappers
  import opened Bcrypt
  import opened Jwt
  import opened UserModel
  import opened Http

  /** The fallback secret used when the environment sets none. */
  const JWT_SECRET: string := "your_jwt_secret_here"

  /** `'24h'`, in seconds. */
  const TOKEN_EXPIRES: nat := 24 * 60 * 60

  const MIN_PASSWORD: nat := 8

  /** The fields a reply may show: never the password digest. */
  datatype PublicUser = PublicUser(id: UserId, name: string, email: string)

  datatype Session = Session(token: string, user: PublicUser)

  function Public(u: User): PublicUser {
    PublicUser(u.id, u.name, u.email)
  }

  lemma VerifySignAll(c: Claims, key: string)
    ensures forall now: nat :: Verify(Some(Sign(c, key)), key, now)
                               == if now < c.exp then Verified(c) else Rejected(Expired)
  {
    forall now: nat
      ensures Verify(Some(Sign(c, key)), key, now) == if now < c.exp then Verified(c) else Rejected(Expired)
    {
      VerifySign(c, key, now);
    }
  }

  /**
   * `createToken(userId)` at time `issued`: the token carries only the id (with
   * the issue and expiry times) and verifies, with the server secret, for
   * exactly the 24 hours after issue.
   */
  function CreateToken(userId: UserId, issued: nat): (token: string)
    ensures forall now: nat :: Verify(Some(token), JWT_SECRET, now)
                               == if now < issued + TOKEN_EXPIRES
                                  then Verified(Claims(userId, issued, issued + TOKEN_EXPIRES))
                                  else Rejected(Expired)
  {
    VerifySignAll(Claims(userId, issued, issued + TOKEN_EXPIRES), JWT_SECRET);
    Sign(Claims(userId, issued, issued + TOKEN_EXPIRES), JWT_SECRET)
  }

  class UserStore {
    /** The `user` collection, keyed by `_id`. */
    var users: map<UserId, User>
    /** The id the next created record receives. */
    var nextId: UserId
    /** `validator.isEmail`. */
    const isEmail: string -> bool

    ghost predicate Valid()
      reads this
    {
      Conforms(users) && forall id :: id in users ==> id < nextId
    }

    constructor (isEmail: string -> bool)
      ensures Valid() && users == map[] && this.isEmail == isEmail
    {
      users := map[];
      nextId := 0;
      this.isEmail := isEmail;
    }

    /** `User.findOne({email})`. */
    method FindByEmail(email: string) returns (r: Option<UserId>)
      requires Valid()
      ensures r.None? <==> !EmailTaken(users, email)
      ensures r.Some? ==> r.value in users && users[r.value].email == email
      ensures r.Some? ==> forall id :: id in users && users[id].email == email ==> id == r.value
    {
      var ids := set id | id in users && users[id].email == email;
      if ids == {} {
        assert forall id :: id in users && users[id].email == email ==> id in ids;
        r := None;
      } else {
        var id :| id in ids;
        r := Some(id);
      }
    }

    /** `registerUser`. */
    method Register(name: string, email: string, password: string, now: nat) returns (r: Reply<Session>)
      requires Valid()
      modifies this
      ensures Valid()
      ensures name == "" || email == "" || password == "" ==> r == Fail(400, "All Fields Are Required")
      ensures name != "" && email != "" && password != "" && !isEmail(email) ==>
                r == Fail(400, "Invalid Email")
      ensures name != "" && email != "" && password != "" && isEmail(email) && |password| < MIN_PASSWORD ==>
                r == Fail(400, "Password must be at least 8 characters")
      ensures name != "" && email != "" && isEmail(email) && |password| >= MIN_PASSWORD
              && EmailTaken(old(users), email) ==>
                r == Fail(409, "User Already Exists")
      ensures (name != "" && email != "" && isEmail(email) && |password| >= MIN_PASSWORD
               && !EmailTaken(old(users), email)) ==> r.Ok?
      ensures r.Fail? ==> users == old(users) && nextId == old(nextId)
      ensures r.Ok? ==>
                var id := old(nextId);
                && name != "" && email != "" && isEmail(email) && |password| >= MIN_PASSWORD
                && !EmailTaken(old(users), email)
                && users == old(users)[id := User(id, name, email, Hash(password))]
                && nextId == id + 1
                && r == Ok(201, Session(CreateToken(id, now), PublicUser(id, name, email)))
    {
      if name == "" || email == "" || password == "" {
        return Fail(400, "All Fields Are Required");
      }
      if !isEmail(email) {
        return Fail(400, "Invalid Email");
      }
      if |password| < MIN_PASSWORD {
        return Fail(400, "Password must be at least 8 characters");
      }
      var existing := FindByEmail(email);
      if existing.Some? {
        return Fail(409, "User Already Exists");
      }
      var id := nextId;
      var user := User(id, name, email, Hash(password));
      InsertConforms(users, user);
      users := users[id := user];
      nextId := nextId + 1;
      r := Ok(201, Session(CreateToken(id, now), Public(user)));
    }

    /** `loginUser`: an unknown email and a wrong password get the same reply. */
    method Login(email: string, password: string, now: nat) returns (r: Reply<Session>)
      requires Valid()
      ensures email == "" || password == "" ==> r == Fail(400, "Email And Password Are Required")
      ensures email != "" && password != "" && !EmailTaken(users, email) ==>
                r == Fail(401, "Invalid Credentials")
      ensures email != "" && password != "" ==>
                forall id :: id in users && users[id].email == email ==>
                  r == if Compare(password, users[id].password)
                       then Ok(200, Session(CreateToken(id, now), Public(users[id])))
                       else Fail(401, "Invalid Credentials")
    {
      if email == "" || password == "" {
        return Fail(400, "Email And Password Are Required");
      }
      var found := FindByEmail(email);
      if found.None? {
        return Fail(401, "Invalid Credentials");
      }
      var user := users[found.value];
      if !Compare(password, user.password) {
        return Fail(401, "Invalid Credentials");
      }
      r := Ok(200, Session(CreateToken(user.id, now), Public(user)));
    }

    /**
     * `getCurrentUser` for the authenticated caller. Behind the middleware the
     * 400 is reached only if the record is deleted between the two lookups.
     */
    method GetCurrentUser(caller: UserId) returns (r: Reply<PublicUser>)
      requires Valid()
      ensures caller !in users ==> r == Fail(400, "User Not Found")
      ensures caller in users ==> r == Ok(200, Public(users[caller]))
    {
      if caller !in users {
        return Fail(400, "User Not Found");
      }
      r := Ok(200, Public(users[caller]));
    }

    /**
     * `updateProfile`: its `!validator` test is always false, so any non-empty
     * email is accepted unless another account holds it; keeping one's own email
     * is allowed. A caller whose record is gone gets a success reply with no
     * user; behind the middleware, which has just loaded that record, this
     * happens only if the record is deleted in between.
     */
    method UpdateProfile(caller: UserId, name: string, email: string) returns (r: Reply<Option<PublicUser>>)
      requires Valid()
      modifies this
      ensures Valid() && nextId == old(nextId)
      ensures name == "" || email == "" ==> r == Fail(400, "Valid name and Email required")
      ensures name != "" && email != "" && (exists id :: id in old(users) && id != caller && old(users)[id].email == email) ==>
                r == Fail(409, "email already used by another account")
      ensures name != "" && email != "" && (forall id :: id in old(users) && id != caller ==> old(users)[id].email != email) ==>
                r.Ok?
      ensures r.Fail? ==> users == old(users)
      ensures r.Ok? ==>
                && name != "" && email != ""
                && (forall id :: id in old(users) && id != caller ==> old(users)[id].email != email)
                && r.status == 200
                && if caller in old(users)
                   then users == old(users)[caller := old(users)[caller].(name := name, email := email)]
                        && r.value == Some(PublicUser(caller, name, email))
                   else users == old(users) && r.value == None
    {
      if name == "" || email == "" {
        return Fail(400, "Valid name and Email required");
      }
      var others := set id | id in users && id != caller && users[id].email == email;
      if others != {} {
        return Fail(409, "email already used by another account");
      }
      assert forall id :: id in users && id != caller && users[id].email == email ==> id in others;
      if caller !in users {
        return Ok(200, None);
      }
      var user := users[caller].(name := name, email := email);
      ReplaceConforms(users, user);
      users := users[caller := user];
      r := Ok(200, Some(Public(user)));
    }

    /**
     * `updatePassword`: only the caller's digest changes, and only after the
     * current password matches. Behind the middleware the 404 is reached only if
     * the caller's record is deleted between the two lookups.
     */
    method UpdatePassword(caller: UserId, currentPassword: string, newPassword: string) returns (r: Reply<string>)
      requires Valid()
      modifies this
      ensures Valid() && nextId == old(nextId)
      ensures currentPassword == "" || newPassword == "" || |newPassword| < MIN_PASSWORD ==>
                r == Fail(400, "Password invalid or too Short")
      ensures currentPassword != "" && |newPassword| >= MIN_PASSWORD && caller !in old(users) ==>
                r == Fail(404, "User Not Found")
      ensures currentPassword != "" && |newPassword| >= MIN_PASSWORD && caller in old(users)
              && !Compare(currentPassword, old(users)[caller].password) ==>
                r == Fail(401, "current password invalid")
      ensures currentPassword != "" && |newPassword| >= MIN_PASSWORD && caller in old(users)
              && Compare(currentPassword, old(users)[caller].password) ==>
                r.Ok?
      ensures r.Fail? ==> users == old(users)
      ensures r.Ok? ==>
                && currentPassword != "" && |newPassword| >= MIN_PASSWORD
                && caller in old(users) && Compare(currentPassword, old(users)[caller].password)
                && users == old(users)[caller := old(users)[caller].(password := Hash(newPassword))]
                && r == Ok(200, "password changed")
    {
      if currentPassword == "" || newPassword == "" || |newPassword| < MIN_PASSWORD {
        return Fail(400, "Password invalid or too Short");
      }
      if caller !in users {
        return Fail(404, "User Not Found");
      }
      if !Compare(currentPassword, users[caller].password) {
        return Fail(401, "current password invalid");
      }
      var user := users[caller].(password := Hash(newPassword));
      ReplaceConforms(users, user);
      users := users[caller := user];
      r := Ok(200, "password changed");
    }
  }
}
