/**
 * The account store behind `/auth`: registration, login with its 401/403 gate, the user
 * listing, approval and blocking. The users file becomes an in-memory map plus the order
 * in which names were first added (the order a Python dict keeps); the login token is an
 * input.
 */
module Auth {
  import opened Wrappers

  datatype User = User(password: string, role: string, approved: bool)

  /** One row of `get_users`. */
  datatype Row = Row(username: string, role: string, approved: bool)

  /** A successful login. */
  datatype Session = Session(username: string, role: string, token: string)

  /** `load_users` when there is no users file. */
  function DefaultUsers(): (users: map<string, User>)
    ensures users.Keys == {"admin"} && users["admin"] == User("admin", "admin", true)
  {
    map["admin" := User("admin", "admin", true)]
  }

  /** `login`: 401 for an unknown name or a wrong password, then 403 while not approved. */
  function Login(users: map<string, User>, username: string, password: string, token: string): (r: Result<Session, int>)
    ensures r == Err(401) <==> username !in users || users[username].password != password
    ensures r == Err(403) <==> username in users && users[username].password == password && !users[username].approved
    ensures r.Ok? <==> username in users && users[username].password == password && users[username].approved
    ensures r.Ok? ==> r.value == Session(username, users[username].role, token)
  {
    if username !in users || users[username].password != password then Err(401)
    else if !users[username].approved then Err(403)
    else Ok(Session(username, users[username].role, token))
  }

  /** `get_users`: every user whose role is not "admin", in insertion order. */
  function Listing(users: map<string, User>, order: seq<string>): (rows: seq<Row>)
    requires forall k :: 0 <= k < |order| ==> order[k] in users
    ensures forall r :: r in rows ==> r.username in users && users[r.username].role != "admin"
    ensures forall r :: r in rows ==> r.username in users && r == Row(r.username, users[r.username].role, users[r.username].approved)
    ensures forall k :: 0 <= k < |order| && users[order[k]].role != "admin" ==>
      Row(order[k], users[order[k]].role, users[order[k]].approved) in rows
    decreases |order|
  {
    if order == [] then []
    else
      var rest := Listing(users, order[1..]);
      var u := users[order[0]];
      if u.role != "admin" then [Row(order[0], u.role, u.approved)] + rest else rest
  }

  /** Every name in `order` is a user, every user is in `order` once. */
  predicate WellOrdered(users: map<string, User>, order: seq<string>) {
    (forall k :: 0 <= k < |order| ==> order[k] in users) &&
    (forall n :: n in users ==> n in order) &&
    (forall i, j :: 0 <= i < j < |order| ==> order[i] != order[j])
  }

  /** The store after one of the gating operations, seen through `login`: only the flag matters. */
  lemma LoginFollowsApproval(users: map<string, User>, username: string, password: string, token: string, flag: bool)
    requires username in users && users[username].password == password
    ensures var u := users[username];
      Login(users[username := u.(approved := flag)], username, password, token) ==
        if flag then Ok(Session(username, u.role, token)) else Err(403)
  {
  }

  /** A fresh registration cannot log in until it is approved, and then logs in as an employee. */
  lemma RegistrationGate(users: map<string, User>, username: string, password: string, token: string)
    requires username !in users
    ensures Login(users[username := User(password, "employee", false)], username, password, token) == Err(403)
    ensures Login(users[username := User(password, "employee", true)], username, password, token) ==
      Ok(Session(username, "employee", token))
  {
  }

  /** The users file, held in memory. */
  class UserStore {
    var users: map<string, User>
    var order: seq<string>

    ghost predicate Valid()
      reads this
    {
      WellOrdered(users, order)
    }

    /** `load_users` with no users file. */
    constructor ()
      ensures Valid() && users == DefaultUsers() && order == ["admin"]
    {
      users := DefaultUsers();
      order := ["admin"];
    }

    /** `register`: 400 for an existing name; otherwise an unapproved employee is added. */
    method Register(username: string, password: string) returns (r: Result<string, int>)
      requires Valid()
      modifies this
      ensures Valid()
      ensures username in old(users) ==> r == Err(400) && users == old(users) && order == old(order)
      ensures username !in old(users) ==>
        r.Ok? && users == old(users)[username := User(password, "employee", false)] && order == old(order) + [username]
    {
      if username in users {
        return Err(400);
      }
      users := users[username := User(password, "employee", false)];
      order := order + [username];
      return Ok("Registration successful. Please wait for Admin approval.");
    }

    method LoginUser(username: string, password: string, token: string) returns (r: Result<Session, int>)
      ensures r == Login(users, username, password, token)
    {
      if username !in users || users[username].password != password {
        return Err(401);
      }
      if !users[username].approved {
        return Err(403);
      }
      return Ok(Session(username, users[username].role, token));
    }

    method GetUsers() returns (rows: seq<Row>)
      requires Valid()
      ensures rows == Listing(users, order)
    {
      rows := Listing(users, order);
    }

    /** `approve_user` (`flag` true) and `block_user` (`flag` false): 404 for an unknown name; otherwise only `approved` changes. */
    method SetApproved(username: string, flag: bool) returns (r: Result<string, int>)
      requires Valid()
      modifies this
      ensures Valid() && order == old(order)
      ensures username !in old(users) ==> r == Err(404) && users == old(users)
      ensures username in old(users) ==> r.Ok? && users == old(users)[username := old(users)[username].(approved := flag)]
    {
      if username !in users {
        return Err(404);
      }
      users := users[username := users[username].(approved := flag)];
      return Ok("User " + username + (if flag then " approved" else " blocked"));
    }

    method ApproveUser(username: string) returns (r: Result<string, int>)
      requires Valid()
      modifies this
      ensures Valid() && order == old(order)
      ensures username !in old(users) ==> r == Err(404) && users == old(users)
      ensures username in old(users) ==> r.Ok? && users == old(users)[username := old(users)[username].(approved := true)]
    {
      r := SetApproved(username, true);
    }

    method BlockUser(username: string) returns (r: Result<string, int>)
      requires Valid()
      modifies this
      ensures Valid() && order == old(order)
      ensures username !in old(users) ==> r == Err(404) && users == old(users)
      ensures username in old(users) ==> r.Ok? && users == old(users)[username := old(users)[username].(approved := false)]
    {
      r := SetApproved(username, false);
    }
  }

  /** An HTTP status for a result. */
  function Status<T>(r: Result<T, int>): int {
    if r.Ok? then 200 else r.error
  }

  /** Register, log in (refused), approve, log in (accepted), on a fresh store. */
  method ApprovalScenario(username: string, password: string, token: string) returns (codes: seq<int>)
    requires username != "admin"
    ensures codes == [200, 403, 200, 200]
  {
    var store := new UserStore();
    var r1 := store.Register(username, password);
    var r2 := store.LoginUser(username, password, token);
    var r3 := store.ApproveUser(username);
    var r4 := store.LoginUser(username, password, token);
    codes := [Status(r1), Status(r2), Status(r3), Status(r4)];
  }

  /** Register, approve, log in (accepted), block, log in (refused), on a fresh store. */
  method BlockingScenario(username: string, password: string, token: string) returns (codes: seq<int>)
    requires username != "admin"
    ensures codes == [200, 200, 200, 200, 403]
  {
    var store := new UserStore();
    var r1 := store.Register(username, password);
    var r2 := store.ApproveUser(username);
    var r3 := store.LoginUser(username, password, token);
    var r4 := store.BlockUser(username);
    var r5 := store.LoginUser(username, password, token);
    codes := [Status(r1), Status(r2), Status(r3), Status(r4), Status(r5)];
  }
}
