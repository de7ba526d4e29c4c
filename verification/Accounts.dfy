/** The unauthenticated routes: `POST /signup`, `POST /login` and `POST /refresh`. */
module Accounts {
  import opened Wrappers
  import opened Seqs
  import opened Store

  /** The body of a 201 signup answer: the new account without its password. */
  datatype Profile = Profile(id: int, username: string)

  /** The body of a 200 login answer. */
  datatype Tokens = Tokens(token: string, refreshToken: string)

  /** Some account already has this exact username. */
  ghost predicate Taken(users: seq<User>, name: string)
  {
    exists i :: 0 <= i < |users| && users[i].username == name
  }

  /** `i` is the index `users.find(u => u.username === name)` lands on. */
  ghost predicate IsFirstNamed(users: seq<User>, i: int, name: string)
  {
    0 <= i < |users| && users[i].username == name
    && forall j :: 0 <= j < i ==> users[j].username != name
  }

  /** `POST /signup`: 400 when the username is taken, leaving everything as it was; otherwise
      the account `{ id: users.length + 1, username, hash(password) }` is appended and the
      earlier accounts, the refresh table and the todos are left untouched. */
  function Signup(s: State, f: Foreign, username: string, password: string): (r: Step<Profile>)
    ensures Taken(s.users, username) ==> r == Step(Err(DuplicateUsername), s)
    ensures !Taken(s.users, username) ==>
      && r.result == Ok(Profile(|s.users| + 1, username))
      && |r.next.users| == |s.users| + 1
      && r.next.users[..|s.users|] == s.users
      && r.next.users[|s.users|] == User(|s.users| + 1, username, f.hash(password))
      && r.next.refreshTokens == s.refreshTokens
      && r.next.todos == s.todos
  {
    if FindIndex(s.users, Named(username)).Some? then
      Step(Err(DuplicateUsername), s)
    else
      var user := User(|s.users| + 1, username, f.hash(password));
      assert (s.users + [user])[..|s.users|] == s.users;
      Step(Ok(Profile(user.id, user.username)), s.(users := s.users + [user]))
  }

  /** Signup keeps account ids equal to positions and usernames pairwise distinct. */
  lemma SignupPreservesInvariant(s: State, f: Foreign, username: string, password: string)
    requires UsersInvariant(s.users)
    ensures UsersInvariant(Signup(s, f, username, password).next.users)
  {
    var r := Signup(s, f, username, password);
    if !Taken(s.users, username) {
      var us := r.next.users;
      forall i, j | 0 <= i < j < |us| ensures us[i].username != us[j].username {
        if j < |s.users| {
          assert us[i] == s.users[i] && us[j] == s.users[j];
        } else {
          assert us[i] == s.users[i];
        }
      }
      forall i | 0 <= i < |us| ensures us[i].id == i + 1 {
        if i < |s.users| {
          assert us[i] == s.users[i];
        }
      }
    }
  }

  /** `POST /login`: 401 with no state change unless the first account with this exact
      username exists and the password compares equal to its hash; on success answers an
      access and a refresh token signed for that account and binds the refresh token to
      the access-token string, changing nothing else. */
  function Login(s: State, f: Foreign, username: string, password: string): (r: Step<Tokens>)
    ensures r.next.users == s.users && r.next.todos == s.todos
    ensures r.result.Err? ==> r.result.error == InvalidCredentials && r.next == s
    ensures r.result.Ok? <==>
      exists i :: IsFirstNamed(s.users, i, username) && f.compare(password, s.users[i].passwordHash)
    ensures r.result.Ok? ==> exists i ::
      && IsFirstNamed(s.users, i, username)
      && r.result.value == Tokens(f.signAccess(s.users[i].id), f.signRefresh(s.users[i].id))
    ensures r.result.Ok? ==>
      r.next.refreshTokens == s.refreshTokens[r.result.value.refreshToken := r.result.value.token]
  {
    match FindIndex(s.users, Named(username))
    case None => Step(Err(InvalidCredentials), s)
    case Some(i) =>
      var user := s.users[i];
      assert IsFirstNamed(s.users, i, username);
      assert forall k :: IsFirstNamed(s.users, k, username) ==> k == i;
      if !f.compare(password, user.passwordHash) then
        Step(Err(InvalidCredentials), s)
      else
        var token := f.signAccess(user.id);
        var refreshToken := f.signRefresh(user.id);
        Step(Ok(Tokens(token, refreshToken)), s.(refreshTokens := s.refreshTokens[refreshToken := token]))
  }

  /** `!refreshTokens[refreshToken]` is false: the key is bound to a non-empty string. */
  ghost predicate Bound(table: map<string, string>, refreshToken: string)
  {
    refreshToken in table && table[refreshToken] != ""
  }

  /** The conditions under which `POST /refresh` answers 200: a non-empty, bound refresh
      token whose stored string converts to the id of some account. */
  ghost predicate RefreshAccepted(s: State, f: Foreign, refreshToken: string)
  {
    && refreshToken != ""
    && Bound(s.refreshTokens, refreshToken)
    && f.toNumber(s.refreshTokens[refreshToken]).Some?
    && exists i :: 0 <= i < |s.users| && s.users[i].id == f.toNumber(s.refreshTokens[refreshToken]).value
  }

  /** `POST /refresh`: never changes the state; 401 unless the token is accepted, and then
      a fresh access token signed for the id `Number(refreshTokens[refreshToken])`. */
  function Refresh(s: State, f: Foreign, refreshToken: string): (r: Step<string>)
    ensures r.next == s
    ensures r.result.Err? ==> r.result.error == InvalidRefreshToken
    ensures refreshToken !in s.refreshTokens ==> r.result.Err?
    ensures r.result.Ok? <==> RefreshAccepted(s, f, refreshToken)
    ensures r.result.Ok? ==>
      r.result.value == f.signAccess(f.toNumber(s.refreshTokens[refreshToken]).value)
  {
    if refreshToken == "" || refreshToken !in s.refreshTokens || s.refreshTokens[refreshToken] == "" then
      Step(Err(InvalidRefreshToken), s)
    else
      match f.toNumber(s.refreshTokens[refreshToken])
      case None => Step(Err(InvalidRefreshToken), s)
      case Some(n) =>
        match FindIndex(s.users, HasId(n))
        case None => Step(Err(InvalidRefreshToken), s)
        case Some(i) => Step(Ok(f.signAccess(s.users[i].id)), s)
  }

  /** A freshly signed-up account can log in with a password exactly when the comparison
      accepts it against the stored hash; the tokens are then signed for the new id. */
  lemma SignupThenLogin(s: State, f: Foreign, username: string, password: string, attempt: string)
    requires !Taken(s.users, username)
    ensures var s' := Signup(s, f, username, password).next;
      && (Login(s', f, username, attempt).result.Ok? <==> f.compare(attempt, f.hash(password)))
      && (Login(s', f, username, attempt).result.Ok? ==>
            Login(s', f, username, attempt).result.value
              == Tokens(f.signAccess(|s.users| + 1), f.signRefresh(|s.users| + 1)))
  {
    var s' := Signup(s, f, username, password).next;
    var n := |s.users|;
    assert IsFirstNamed(s'.users, n, username) by {
      forall j | 0 <= j < n ensures s'.users[j].username != username {
        assert s'.users[j] == s.users[j];
      }
    }
    assert forall k :: IsFirstNamed(s'.users, k, username) ==> k == n;
  }

  /** The refresh token a login hands out is accepted later exactly when the access-token
      string bound to it converts to the id of an existing account. */
  lemma LoginThenRefresh(s: State, f: Foreign, username: string, password: string)
    requires Login(s, f, username, password).result.Ok?
    ensures var l := Login(s, f, username, password);
      var tokens := l.result.value;
      Refresh(l.next, f, tokens.refreshToken).result.Ok? <==>
        && tokens.refreshToken != ""
        && tokens.token != ""
        && f.toNumber(tokens.token).Some?
        && exists i :: 0 <= i < |s.users| && s.users[i].id == f.toNumber(tokens.token).value
  {
    var l := Login(s, f, username, password);
    assert l.next.refreshTokens[l.result.value.refreshToken] == l.result.value.token;
  }

  /** Since a signed access token is not a numeral, the refresh token handed out by a login
      is always refused: the refresh table binds to the token string, not the user id. */
  lemma RefreshAfterLoginRefused(s: State, f: Foreign, username: string, password: string)
    requires Login(s, f, username, password).result.Ok?
    requires f.toNumber(Login(s, f, username, password).result.value.token).None?
    ensures var l := Login(s, f, username, password);
      Refresh(l.next, f, l.result.value.refreshToken).result == Err(InvalidRefreshToken)
  {
    LoginThenRefresh(s, f, username, password);
  }
}
