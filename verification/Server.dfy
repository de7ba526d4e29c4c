/** The service as a whole: every request is one of the eight routes, handled to completion
    before the next one starts. */
module Server {
  import opened Wrappers
  import opened Store
  import Accounts
  import Authorizer
  import Todos

  /** One request to one of the routes, carrying the inputs its handler reads. */
  datatype Request =
    | SignupRequest(username: string, password: string)
    | LoginRequest(username: string, password: string)
    | RefreshRequest(refreshToken: string)
    | ListRequest(header: Option<string>)
    | GetRequest(header: Option<string>, idParam: string)
    | CreateRequest(header: Option<string>, title: string)
    | UpdateRequest(header: Option<string>, idParam: string, newTitle: Option<string>, completed: Option<bool>)
    | DeleteRequest(header: Option<string>, idParam: string)

  /** The state a request leaves behind. */
  function Handle(s: State, f: Foreign, req: Request): State
  {
    match req
    case SignupRequest(u, p) => Accounts.Signup(s, f, u, p).next
    case LoginRequest(u, p) => Accounts.Login(s, f, u, p).next
    case RefreshRequest(t) => Accounts.Refresh(s, f, t).next
    case ListRequest(h) => Todos.GetTodos(s, f, h).next
    case GetRequest(h, id) => Todos.GetTodo(s, f, h, id).next
    case CreateRequest(h, title) => Todos.PostTodo(s, f, h, title).next
    case UpdateRequest(h, id, title, completed) => Todos.PutTodo(s, f, h, id, title, completed).next
    case DeleteRequest(h, id) => Todos.DeleteTodo(s, f, h, id).next
  }

  /** The state after handling the requests one after another. */
  function Run(s: State, f: Foreign, reqs: seq<Request>): State
    decreases |reqs|
  {
    if |reqs| == 0 then s else Run(Handle(s, f, reqs[0]), f, reqs[1..])
  }

  /** Whatever the request: accounts are only ever appended (never changed or removed), the
      account invariant is kept, and a refresh token once bound stays bound. */
  lemma HandlePreserves(s: State, f: Foreign, req: Request)
    requires UsersInvariant(s.users)
    ensures UsersInvariant(Handle(s, f, req).users)
    ensures s.users <= Handle(s, f, req).users
    ensures s.refreshTokens.Keys <= Handle(s, f, req).refreshTokens.Keys
  {
    if req.SignupRequest? {
      Accounts.SignupPreservesInvariant(s, f, req.username, req.password);
    }
  }

  /** The guarantees of `HandlePreserves` hold across any sequence of requests. */
  lemma {:induction false} RunPreserves(s: State, f: Foreign, reqs: seq<Request>)
    requires UsersInvariant(s.users)
    ensures UsersInvariant(Run(s, f, reqs).users)
    ensures s.users <= Run(s, f, reqs).users
    ensures s.refreshTokens.Keys <= Run(s, f, reqs).refreshTokens.Keys
    decreases |reqs|
  {
    if |reqs| > 0 {
      HandlePreserves(s, f, reqs[0]);
      RunPreserves(Handle(s, f, reqs[0]), f, reqs[1..]);
    }
  }

  /** In every state the service can reach, the i-th account has id i + 1, usernames are
      distinct, and the two seeded accounts are still the first two. */
  lemma ReachableInvariant(f: Foreign, reqs: seq<Request>)
    ensures UsersInvariant(Run(Seed(f), f, reqs).users)
    ensures Seed(f).users <= Run(Seed(f), f, reqs).users
  {
    SeedInvariant(f);
    RunPreserves(Seed(f), f, reqs);
  }

  /** From start-up: `alice` signs up as account 3 (after the two seeded ones), logs in,
      creates "buy milk" as todo 1 with the access token the login answered, and a caller
      whose token verifies to another id gets 404 for todo 1. */
  lemma AliceScenario(f: Foreign, other: string, otherId: int)
    requires f.compare("pw1", f.hash("pw1"))
    requires f.verify(f.signAccess(3)) == Some(3)
    requires ' ' !in f.signAccess(3) && f.signAccess(3) != ""
    requires ' ' !in other && other != "" && f.verify(other) == Some(otherId) && otherId != 3
    requires f.toNumber("1") == Some(1)
    ensures var s1 := Accounts.Signup(Seed(f), f, "alice", "pw1");
      var s2 := Accounts.Login(s1.next, f, "alice", "pw1");
      var token := f.signAccess(3);
      var s3 := Todos.PostTodo(s2.next, f, Some("Bearer " + token), "buy milk");
      && s1.result == Ok(Accounts.Profile(3, "alice"))
      && s2.result == Ok(Accounts.Tokens(token, f.signRefresh(3)))
      && s3.result == Ok(Todo(1, "buy milk", false, 3))
      && Todos.GetTodo(s3.next, f, Some("Bearer " + other), "1").result == Err(TodoNotFound)
      && Todos.GetTodo(s3.next, f, Some("Bearer " + token), "1").result == Ok(Todo(1, "buy milk", false, 3))
  {
    var s1 := Accounts.Signup(Seed(f), f, "alice", "pw1");
    assert !Accounts.Taken(Seed(f).users, "alice") by {
      assert Seed(f).users[0].username == "user1" && Seed(f).users[1].username == "user2";
    }
    assert |Seed(f).users| == 2;
    Accounts.SignupThenLogin(Seed(f), f, "alice", "pw1", "pw1");
    var s2 := Accounts.Login(s1.next, f, "alice", "pw1");
    assert s2.next.todos == [];
    var token := f.signAccess(3);
    assert "Bearer" + " " + token == "Bearer " + token;
    assert "Bearer" + " " + other == "Bearer " + other;
    Authorizer.AuthorizeSchemeAndToken(f, "Bearer", token);
    Authorizer.AuthorizeSchemeAndToken(f, "Bearer", other);
    var s3 := Todos.PostTodo(s2.next, f, Some("Bearer " + token), "buy milk");
    assert s3 == Todos.Create(s2.next, 3, "buy milk");
    assert s3.next.todos == [Todo(1, "buy milk", false, 3)];
    assert Todos.IsFirstMatch(s3.next.todos, 0, Some(1), 3);
  }
}
