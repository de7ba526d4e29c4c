/** The todo routes: ownership-scoped list, get, create, update and delete, each behind
    the bearer-token guard. */
module Todos {
  import opened Wrappers
  import opened Seqs
  import opened Store
  import Authorizer

  /** The predicate `todo => todo.userId === uid`. */
  function OwnedBy(uid: int): Todo -> bool
  {
    (t: Todo) => t.userId == uid
  }

  /** `todo.id === todoId && todo.userId === userId`, where a `NaN` id matches nothing. */
  predicate Matches(t: Todo, todoId: Option<int>, uid: int)
  {
    todoId.Some? && t.id == todoId.value && t.userId == uid
  }

  /** `Matches` as the callback handed to `find` and `findIndex`. */
  function MatchesOwned(todoId: Option<int>, uid: int): Todo -> bool
  {
    (t: Todo) => Matches(t, todoId, uid)
  }

  /** `i` is the index `findIndex` lands on. */
  ghost predicate IsFirstMatch(todos: seq<Todo>, i: int, todoId: Option<int>, uid: int)
  {
    0 <= i < |todos| && Matches(todos[i], todoId, uid)
    && forall j :: 0 <= j < i ==> !Matches(todos[j], todoId, uid)
  }

  /** No todo owned by `uid` has the id `todoId`. */
  ghost predicate NoMatch(todos: seq<Todo>, todoId: Option<int>, uid: int)
  {
    forall j :: 0 <= j < |todos| ==> !Matches(todos[j], todoId, uid)
  }

  /** `todos.filter(todo => todo.userId === uid)`: only the caller's todos, each as many
      times as it occurs in the store. */
  function ListOwned(todos: seq<Todo>, uid: int): (r: seq<Todo>)
    ensures |r| <= |todos|
    ensures forall i :: 0 <= i < |r| ==> r[i].userId == uid
    ensures forall t: Todo :: t.userId == uid ==> multiset(r)[t] == multiset(todos)[t]
  {
    FilterCount(todos, OwnedBy(uid));
    Filter(todos, OwnedBy(uid))
  }

  /** The list keeps insertion order: listing a concatenation lists each half in turn. */
  lemma ListOwnedConcat(a: seq<Todo>, b: seq<Todo>, uid: int)
    ensures ListOwned(a + b, uid) == ListOwned(a, uid) + ListOwned(b, uid)
  {
    FilterConcat(a, b, OwnedBy(uid));
  }

  /** `todos.find(...)`: the first todo with this id owned by the caller, or 404. */
  function FindOwned(todos: seq<Todo>, todoId: Option<int>, uid: int): (r: Result<Todo, Failure>)
    ensures r.Err? <==> NoMatch(todos, todoId, uid)
    ensures r.Err? ==> r.error == TodoNotFound
    ensures r.Ok? ==> exists i :: IsFirstMatch(todos, i, todoId, uid) && r.value == todos[i]
    ensures r.Ok? ==> r.value.userId == uid && Some(r.value.id) == todoId
  {
    match FindIndex(todos, MatchesOwned(todoId, uid))
    case None => Err(TodoNotFound)
    case Some(i) =>
      assert IsFirstMatch(todos, i, todoId, uid);
      Ok(todos[i])
  }

  /** Creating appends exactly `{ id: todos.length + 1, title, completed: false, userId }`
      and changes nothing else. */
  function Create(s: State, uid: int, title: string): (r: Step<Todo>)
    ensures r.result.Ok?
    ensures r.result.value == Todo(|s.todos| + 1, title, false, uid)
    ensures |r.next.todos| == |s.todos| + 1
    ensures r.next.todos[..|s.todos|] == s.todos
    ensures r.next.todos[|s.todos|] == r.result.value
    ensures r.next.users == s.users && r.next.refreshTokens == s.refreshTokens
  {
    var todo := Todo(|s.todos| + 1, title, false, uid);
    assert (s.todos + [todo])[..|s.todos|] == s.todos;
    Step(Ok(todo), s.(todos := s.todos + [todo]))
  }

  /** `{ ...todo, title: title || todo.title, completed: completed !== undefined ? completed
      : todo.completed }`: id and owner kept, the title replaced only by a non-empty string,
      `completed` replaced whenever supplied. */
  function Merge(t: Todo, title: Option<string>, completed: Option<bool>): (m: Todo)
    ensures m.id == t.id && m.userId == t.userId
    ensures m.title != t.title ==> title == Some(m.title) && m.title != ""
    ensures title.Some? && title.value != "" ==> m.title == title.value
    ensures m.completed != t.completed ==> completed == Some(m.completed)
    ensures completed.Some? ==> m.completed == completed.value
  {
    t.(title := if title.Some? && title.value != "" then title.value else t.title,
       completed := if completed.Some? then completed.value else t.completed)
  }

  /** Updating: 404 with no change when the caller owns no todo with that id; otherwise only
      the first such todo is replaced by its merge with the supplied fields. */
  function Update(s: State, todoId: Option<int>, uid: int, title: Option<string>, completed: Option<bool>)
    : (r: Step<Todo>)
    ensures r.next.users == s.users && r.next.refreshTokens == s.refreshTokens
    ensures r.result.Err? <==> NoMatch(s.todos, todoId, uid)
    ensures r.result.Err? ==> r.result.error == TodoNotFound && r.next == s
    ensures r.result.Ok? ==> exists i ::
      && IsFirstMatch(s.todos, i, todoId, uid)
      && r.result.value == Merge(s.todos[i], title, completed)
      && r.next.todos == s.todos[i := r.result.value]
  {
    match FindIndex(s.todos, MatchesOwned(todoId, uid))
    case None => Step(Err(TodoNotFound), s)
    case Some(i) =>
      assert IsFirstMatch(s.todos, i, todoId, uid);
      var updated := Merge(s.todos[i], title, completed);
      Step(Ok(updated), s.(todos := s.todos[i := updated]))
  }

  /** Deleting: 404 with no change when the caller owns no todo with that id; otherwise the
      first such todo is spliced out and answered, the others keeping their order. */
  function Delete(s: State, todoId: Option<int>, uid: int): (r: Step<Todo>)
    ensures r.next.users == s.users && r.next.refreshTokens == s.refreshTokens
    ensures r.result.Err? <==> NoMatch(s.todos, todoId, uid)
    ensures r.result.Err? ==> r.result.error == TodoNotFound && r.next == s
    ensures r.result.Ok? ==> |r.next.todos| == |s.todos| - 1
    ensures r.result.Ok? ==> exists i ::
      && IsFirstMatch(s.todos, i, todoId, uid)
      && r.result.value == s.todos[i]
      && r.next.todos == s.todos[..i] + s.todos[i+1..]
  {
    match FindIndex(s.todos, MatchesOwned(todoId, uid))
    case None => Step(Err(TodoNotFound), s)
    case Some(i) =>
      assert IsFirstMatch(s.todos, i, todoId, uid);
      Step(Ok(s.todos[i]), s.(todos := s.todos[..i] + s.todos[i+1..]))
  }

  /** Creating as `uid` adds the new todo at the end of the caller's list and leaves every
      other user's list as it was. */
  lemma CreateScoped(s: State, uid: int, title: string, other: int)
    requires other != uid
    ensures var r := Create(s, uid, title);
      && ListOwned(r.next.todos, uid) == ListOwned(s.todos, uid) + [r.result.value]
      && ListOwned(r.next.todos, other) == ListOwned(s.todos, other)
  {
    var r := Create(s, uid, title);
    var t := r.result.value;
    assert r.next.todos == s.todos + [t];
    assert [t][1..] == [];
    assert ListOwned([t], uid) == [t];
    assert ListOwned([t], other) == [];
    ListOwnedConcat(s.todos, [t], uid);
    ListOwnedConcat(s.todos, [t], other);
  }

  /** Updating as `uid` never alters what any other user lists. */
  lemma UpdateScoped(s: State, todoId: Option<int>, uid: int, title: Option<string>,
                     completed: Option<bool>, other: int)
    requires other != uid
    ensures ListOwned(Update(s, todoId, uid, title, completed).next.todos, other)
         == ListOwned(s.todos, other)
  {
    var r := Update(s, todoId, uid, title, completed);
    if r.result.Ok? {
      var i :| IsFirstMatch(s.todos, i, todoId, uid)
        && r.result.value == Merge(s.todos[i], title, completed)
        && r.next.todos == s.todos[i := r.result.value];
      FilterUpdateRejected(s.todos, i, r.result.value, OwnedBy(other));
    }
  }

  /** Deleting as `uid` never alters what any other user lists. */
  lemma DeleteScoped(s: State, todoId: Option<int>, uid: int, other: int)
    requires other != uid
    ensures ListOwned(Delete(s, todoId, uid).next.todos, other) == ListOwned(s.todos, other)
  {
    var r := Delete(s, todoId, uid);
    if r.result.Ok? {
      var i :| IsFirstMatch(s.todos, i, todoId, uid)
        && r.result.value == s.todos[i]
        && r.next.todos == s.todos[..i] + s.todos[i+1..];
      FilterRemoveRejected(s.todos, i, OwnedBy(other));
    }
  }

  /** Ids come from the current length, so a delete followed by a create reissues an id
      that is still in use: two todos of the same user end up sharing id 2. */
  lemma DeleteThenCreateReusesId(users: seq<User>, uid: int)
    ensures var s0 := State(users, map[], []);
      var s1 := Create(s0, uid, "a").next;
      var s2 := Create(s1, uid, "b").next;
      var s3 := Delete(s2, Some(1), uid).next;
      var s4 := Create(s3, uid, "c").next;
      && |s4.todos| == 2
      && s4.todos[0] == Todo(2, "b", false, uid)
      && s4.todos[1] == Todo(2, "c", false, uid)
  {
    var s0 := State(users, map[], []);
    var s2 := Create(Create(s0, uid, "a").next, uid, "b").next;
    assert s2.todos == [Todo(1, "a", false, uid), Todo(2, "b", false, uid)];
    assert IsFirstMatch(s2.todos, 0, Some(1), uid);
    var s3 := Delete(s2, Some(1), uid).next;
    assert s3.todos == [Todo(2, "b", false, uid)];
  }

  // ---- the route handlers: authorization first, then the store operation ----

  /** `GET /todos`: the caller's todos; the state never changes. */
  function GetTodos(s: State, f: Foreign, header: Option<string>): (r: Step<seq<Todo>>)
    ensures r.next == s
    ensures Authorizer.Authorize(f, header).Err? ==> r.result == Err(Authorizer.Authorize(f, header).error)
    ensures Authorizer.Authorize(f, header).Ok? ==>
      r.result == Ok(ListOwned(s.todos, Authorizer.Authorize(f, header).value))
  {
    match Authorizer.Authorize(f, header)
    case Err(e) => Step(Err(e), s)
    case Ok(uid) => Step(Ok(ListOwned(s.todos, uid)), s)
  }

  /** `GET /todos/:id`: a todo only when both its id and its owner match; the state never
      changes. */
  function GetTodo(s: State, f: Foreign, header: Option<string>, idParam: string): (r: Step<Todo>)
    ensures r.next == s
    ensures Authorizer.Authorize(f, header).Err? ==> r.result == Err(Authorizer.Authorize(f, header).error)
    ensures Authorizer.Authorize(f, header).Ok? ==>
      r.result == FindOwned(s.todos, f.toNumber(idParam), Authorizer.Authorize(f, header).value)
    ensures r.result.Ok? ==> r.result.value in s.todos
    ensures r.result.Ok? ==> r.result.value.userId == Authorizer.Authorize(f, header).value
    ensures r.result.Ok? ==> Some(r.result.value.id) == f.toNumber(idParam)
  {
    match Authorizer.Authorize(f, header)
    case Err(e) => Step(Err(e), s)
    case Ok(uid) => Step(FindOwned(s.todos, f.toNumber(idParam), uid), s)
  }

  /** `POST /todos`: creation on behalf of the authorized caller. */
  function PostTodo(s: State, f: Foreign, header: Option<string>, title: string): (r: Step<Todo>)
    ensures Authorizer.Authorize(f, header).Err? ==> r == Step(Err(Authorizer.Authorize(f, header).error), s)
    ensures Authorizer.Authorize(f, header).Ok? ==>
      r == Create(s, Authorizer.Authorize(f, header).value, title)
    ensures r.next.users == s.users && r.next.refreshTokens == s.refreshTokens
  {
    match Authorizer.Authorize(f, header)
    case Err(e) => Step(Err(e), s)
    case Ok(uid) => Create(s, uid, title)
  }

  /** `PUT /todos/:id`: update on behalf of the authorized caller. */
  function PutTodo(s: State, f: Foreign, header: Option<string>, idParam: string,
                   title: Option<string>, completed: Option<bool>): (r: Step<Todo>)
    ensures Authorizer.Authorize(f, header).Err? ==> r == Step(Err(Authorizer.Authorize(f, header).error), s)
    ensures Authorizer.Authorize(f, header).Ok? ==>
      r == Update(s, f.toNumber(idParam), Authorizer.Authorize(f, header).value, title, completed)
    ensures r.result.Err? ==> r.next == s
    ensures r.next.users == s.users && r.next.refreshTokens == s.refreshTokens
  {
    match Authorizer.Authorize(f, header)
    case Err(e) => Step(Err(e), s)
    case Ok(uid) => Update(s, f.toNumber(idParam), uid, title, completed)
  }

  /** `DELETE /todos/:id`: deletion on behalf of the authorized caller. */
  function DeleteTodo(s: State, f: Foreign, header: Option<string>, idParam: string): (r: Step<Todo>)
    ensures Authorizer.Authorize(f, header).Err? ==> r == Step(Err(Authorizer.Authorize(f, header).error), s)
    ensures Authorizer.Authorize(f, header).Ok? ==>
      r == Delete(s, f.toNumber(idParam), Authorizer.Authorize(f, header).value)
    ensures r.result.Err? ==> r.next == s
    ensures r.next.users == s.users && r.next.refreshTokens == s.refreshTokens
  {
    match Authorizer.Authorize(f, header)
    case Err(e) => Step(Err(e), s)
    case Ok(uid) => Delete(s, f.toNumber(idParam), uid)
  }

  /** A caller never sees, changes or removes another user's todo, even when the ids
      coincide: whatever it gets back is its own, and every other user's list is intact. */
  lemma OwnershipIsolation(s: State, f: Foreign, header: Option<string>, idParam: string,
                           title: Option<string>, completed: Option<bool>, other: int)
    requires Authorizer.Authorize(f, header).Ok? && Authorizer.Authorize(f, header).value != other
    ensures GetTodo(s, f, header, idParam).result.Ok? ==>
      GetTodo(s, f, header, idParam).result.value.userId != other
    ensures ListOwned(PutTodo(s, f, header, idParam, title, completed).next.todos, other)
         == ListOwned(s.todos, other)
    ensures ListOwned(DeleteTodo(s, f, header, idParam).next.todos, other) == ListOwned(s.todos, other)
    ensures PutTodo(s, f, header, idParam, title, completed).result.Ok? ==>
      PutTodo(s, f, header, idParam, title, completed).result.value.userId != other
    ensures DeleteTodo(s, f, header, idParam).result.Ok? ==>
      DeleteTodo(s, f, header, idParam).result.value.userId != other
  {
    var uid := Authorizer.Authorize(f, header).value;
    UpdateScoped(s, f.toNumber(idParam), uid, title, completed, other);
    DeleteScoped(s, f.toNumber(idParam), uid, other);
  }

  /** Supplying only a title leaves `completed` alone; supplying only `completed` leaves the
      title alone; an empty title is ignored rather than applied. */
  lemma PartialUpdate(t: Todo, title: string, completed: bool)
    ensures Merge(t, Some(title), None).completed == t.completed
    ensures Merge(t, None, Some(completed)).title == t.title
    ensures Merge(t, None, Some(completed)).completed == completed
    ensures Merge(t, Some(""), None) == t
  {
  }
}
