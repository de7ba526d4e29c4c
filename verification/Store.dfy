/** The process-wide in-memory state of the todo service and the foreign calls it makes. */
module Store {
  import opened Wrappers

  /** A registered account; `passwordHash` is the bcrypt digest, never the raw password. */
  datatype User = User(id: int, username: string, passwordHash: string)

  /** A todo item owned by the user whose id is `userId`. */
  datatype Todo = Todo(id: int, title: string, completed: bool, userId: int)

  /** The three module-level mutables: the `users` array, the `refreshTokens` object
      (refresh-token string to access-token string) and the `todos` array. */
  datatype State = State(users: seq<User>, refreshTokens: map<string, string>, todos: seq<Todo>)

  /** The library calls the handlers make, supplied from outside and never implemented here:
      - `hash`: `bcrypt.hashSync(password, 8)`;
      - `compare`: `bcrypt.compareSync(password, hash)`;
      - `signAccess`: `jwt.sign({ id }, "secret", { expiresIn: "1h" })`;
      - `signRefresh`: `jwt.sign({ id }, "secret")`;
      - `verify`: `jwt.verify(token, "secret").id`, `None` when verification throws;
      - `toNumber`: `Number(s)`, `None` when the result is `NaN` or not an integer. */
  datatype Foreign = Foreign(
    hash: string -> string,
    compare: (string, string) -> bool,
    signAccess: int -> string,
    signRefresh: int -> string,
    verify: string -> Option<int>,
    toNumber: string -> Option<int>)

  /** The failure kinds the handlers answer with, each with its HTTP status and message. */
  datatype Failure =
    | DuplicateUsername    // 400 "Username already exists"
    | InvalidCredentials   // 401 "Invalid username or password"
    | InvalidRefreshToken  // 401 "Invalid refresh token"
    | MissingToken         // 401 "Unauthorized"
    | InvalidToken         // 401 "Invalid token"
    | TodoNotFound         // 404 "Todo not found"

  /** What a handler answers together with the state it leaves behind. */
  datatype Step<+T> = Step(result: Result<T, Failure>, next: State)

  /** The state at start-up: the two seeded accounts, no refresh bindings, no todos. */
  function Seed(f: Foreign): State
  {
    State([User(1, "user1", f.hash("password1")), User(2, "user2", f.hash("password2"))], map[], [])
  }

  /** Account ids are positions: the i-th user (from 0) has id i + 1. */
  ghost predicate IdsArePositions(users: seq<User>)
  {
    forall i :: 0 <= i < |users| ==> users[i].id == i + 1
  }

  /** No two accounts share a username (exact, case-sensitive comparison). */
  ghost predicate UniqueUsernames(users: seq<User>)
  {
    forall i, j :: 0 <= i < j < |users| ==> users[i].username != users[j].username
  }

  ghost predicate UsersInvariant(users: seq<User>)
  {
    IdsArePositions(users) && UniqueUsernames(users)
  }

  /** The seeded accounts satisfy the account invariant, whatever the hash function. */
  lemma SeedInvariant(f: Foreign)
    ensures UsersInvariant(Seed(f).users)
    ensures Seed(f).refreshTokens == map[] && Seed(f).todos == []
  {
  }

  /** The predicate `u => u.username === name`. */
  function Named(name: string): User -> bool
  {
    (u: User) => u.username == name
  }

  /** The predicate `u => u.id === id`. */
  function HasId(id: int): User -> bool
  {
    (u: User) => u.id == id
  }
}
