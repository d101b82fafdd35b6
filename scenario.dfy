/**
 * An end-to-end run through the user routes, the middleware and the task
 * routes: Alice registers, fails one login and cannot register twice; she
 * creates a task with her token, and Bob's token cannot read it; an update
 * naming another owner hands a task over; and `GET /me` behind the middleware.
 */
module Scenario {
  import opened Wrappers
  import opened JsValue
  import opened Http
  import opened Bcrypt
  import opened Jwt
  import opened UserModel
  import opened UserController
  import opened TaskController
  import opened Auth

  /** Register, a login with the wrong password, the same registration again: 201, 401, 409. */
  method RegisterLoginRegister(isEmail: string -> bool, now: nat) returns (statuses: seq<nat>)
    requires isEmail("alice@x.com")
    ensures statuses == [201, 401, 409]
  {
    var users := new UserStore(isEmail);
    var alice := users.Register("Alice", "alice@x.com", "password1", now);
    var aliceId := alice.value.user.id;
    assert aliceId in users.users && users.users[aliceId].email == "alice@x.com";
    assert users.users[aliceId].password == Hash("password1") && !Compare("wrong", Hash("password1"));
    var wrong := users.Login("alice@x.com", "wrong", now);
    var again := users.Register("Alice", "alice@x.com", "password1", now);
    statuses := [alice.status, wrong.status, again.status];
  }

  /** The middleware lets a freshly issued token through as the user it was issued to. */
  method SignIn(users: UserStore, id: UserId, now: nat) returns (caller: UserId)
    requires users.Valid() && id in users.users
    ensures caller == id
  {
    SecretHasNoSpace();
    SignNoSpace(Claims(id, now, now + TOKEN_EXPIRES), JWT_SECRET);
    BearerTokenOf(CreateToken(id, now));
    IssuedTokenAccepted(id, now, now + 1);
    var outcome := Authenticate(users, Some("Bearer " + CreateToken(id, now)), now + 1);
    caller := outcome.user.id;
  }

  /** Alice creates a task through her token; Bob's token reads it back as not found: 201, 404. */
  method ForeignRead(isEmail: string -> bool, now: nat) returns (statuses: seq<nat>)
    requires isEmail("alice@x.com") && isEmail("bob@x.com")
    ensures statuses == [201, 404]
  {
    var users := new UserStore(isEmail);
    var alice := users.Register("Alice", "alice@x.com", "password1", now);
    var bob := users.Register("Bob", "bob@x.com", "password2", now);
    var aliceId, bobId := alice.value.user.id, bob.value.user.id;
    assert aliceId in users.users && bobId in users.users && aliceId != bobId;

    var asAlice := SignIn(users, aliceId, now);
    var tasks := new TaskStore();
    var body := NewTask(Str("Buy milk"), Undefined, Str("Low"), Undefined, Undefined, Undefined);
    var created := tasks.Create(asAlice, body, now + 1);

    var asBob := SignIn(users, bobId, now);
    var foreign := tasks.Get(asBob, created.value.id);
    statuses := [created.status, foreign.status];
  }

  /** Alice creates a task and updates it with Bob as `owner`: then Alice reads it as not found and Bob reads it. */
  method HandOver(now: int) returns (statuses: seq<nat>)
    ensures statuses == [201, 200, 404, 200]
  {
    var alice, bob := 0, 1;
    var tasks := new TaskStore();
    var body := NewTask(Str("Report"), Undefined, Str("High"), Undefined, Bool(false), Undefined);
    var created := tasks.Create(alice, body, now);
    var id := created.value.id;
    var moved := tasks.Update(alice, id, TaskPatch(None, None, None, None, None, Some(bob)));
    var asAlice := tasks.Get(alice, id);
    var asBob := tasks.Get(bob, id);
    statuses := [created.status, moved.status, asAlice.status, asBob.status];
  }

  /**
   * `GET /me` behind the middleware: every refusal is the middleware's 401, so
   * the handler's own 400 "User Not Found" is never the reply.
   */
  method Me(users: UserStore, header: Option<string>, now: nat) returns (r: Reply<PublicUser>)
    requires users.Valid()
    ensures r.Fail? ==> r.status == 401
    ensures r.Ok? ==> r.status == 200 && r.value.id in users.users && r.value == Public(users.users[r.value.id])
  {
    var outcome := Authenticate(users, header, now);
    if outcome.Reject? {
      return Fail(outcome.status, outcome.message);
    }
    r := users.GetCurrentUser(outcome.user.id);
  }
}
