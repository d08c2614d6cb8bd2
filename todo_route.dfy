/** The four handlers of `/api/todos`. Each turns a request into store operations
    on a `TodoTable` and returns the reply it would send. */
module TodoRoute {
  import opened TodoTypes
  import opened TodoQuery
  import opened TodoStore

  /** The store's not-found failure; the handlers do not catch it. */
  datatype StoreError = RecordNotFound(id: int)

  datatype ResponseBody =
    | TodoList(todos: seq<Todo>)
    | OneTodo(todo: Todo)
    | ErrorMessage(error: string)
    | Succeeded

  /** What a handler produces: a response with a status, or an exception thrown
      out of the handler. */
  datatype Reply = Reply(status: int, body: ResponseBody) | Thrown(error: StoreError)

  // ---------------------------------------------------------------- GET

  /** The `where` object built from the `filter` query parameter. */
  function WhereFor(filter: Option<string>): (w: Where)
    ensures forall t :: Matches(w, t) <==>
      (filter == Some("active") ==> !t.completed) && (filter == Some("completed") ==> t.completed)
  {
    if filter == Some("active") then Where(Some(false))
    else if filter == Some("completed") then Where(Some(true))
    else Where(None)
  }

  /** Reference order for `sort=deadline`: earlier deadline first, rows without a
      deadline last, and among equal deadlines the newest row first. */
  predicate DeadlineThenNewest(a: Todo, b: Todo) {
    match (a.deadline, b.deadline)
    case (Some(x), Some(y)) => x < y || (x == y && a.createdAt >= b.createdAt)
    case (Some(_), None) => true
    case (None, Some(_)) => false
    case (None, None) => a.createdAt >= b.createdAt
  }

  /** The `orderBy` list built from the `sort` query parameter. */
  function OrderByFor(sort: Option<string>): (keys: seq<OrderKey>)
    ensures forall a, b :: Le(keys, a, b) <==>
      if sort == Some("deadline") then DeadlineThenNewest(a, b) else a.createdAt >= b.createdAt
  {
    if sort == Some("deadline") then [DeadlineAsc, CreatedAtDesc] else [CreatedAtDesc]
  }

  /** GET: every row that passes the filter, exactly once, in the requested order. */
  method Get(store: TodoTable, filter: Option<string>, sort: Option<string>) returns (reply: Reply)
    requires store.Valid()
    ensures reply.Reply? && reply.status == 200 && reply.body.TodoList?
    ensures Sorted(OrderByFor(sort), reply.body.todos)
    ensures multiset(reply.body.todos) == multiset(store.Selected(WhereFor(filter)))
    ensures forall t :: t in reply.body.todos <==>
      && t.id in store.rows && store.rows[t.id] == t
      && (filter == Some("active") ==> !t.completed)
      && (filter == Some("completed") ==> t.completed)
  {
    var todos := store.FindMany(WhereFor(filter), OrderByFor(sort));
    forall t ensures t in todos <==> t in store.Selected(WhereFor(filter)) {
      assert t in todos <==> t in multiset(todos);
    }
    reply := Reply(200, TodoList(todos));
  }

  // ---------------------------------------------------------------- POST

  /** `!body.title` is false: the title is present and not the empty string. */
  predicate HasTitle(body: PostBody)
    ensures HasTitle(body) <==> body.title.Present? && |body.title.value| > 0
  {
    body.title.Present? && body.title.value != ""
  }

  /** `body.deadline ? new Date(body.deadline) : null`. */
  function DeadlineOf(d: Field<JsonDate>): (r: Option<int>)
    ensures r.Some? <==> d.Present? && IsTruthy(d.value)
    ensures r.Some? ==> r.value == d.value.text.ms
  {
    match d
    case Absent => None
    case Present(j) => DateOf(j)
  }

  /** POST at clock time `now`: 400 without a title, otherwise one new row and 201. */
  method Post(store: TodoTable, body: PostBody, now: int) returns (reply: Reply)
    requires store.Valid()
    modifies store
    ensures store.Valid()
    ensures !HasTitle(body) ==>
      && reply == Reply(400, ErrorMessage("Title is required"))
      && store.rows == old(store.rows) && store.nextId == old(store.nextId)
    ensures HasTitle(body) ==>
      var t := Todo(old(store.nextId), body.title.value, false, DeadlineOf(body.deadline), now);
      && reply == Reply(201, OneTodo(t))
      && t.id !in old(store.rows)
      && store.rows == old(store.rows)[t.id := t]
      && store.nextId == old(store.nextId) + 1
  {
    if !HasTitle(body) {
      return Reply(400, ErrorMessage("Title is required"));
    }
    var todo := store.Create(body.title.value, DeadlineOf(body.deadline), now);
    reply := Reply(201, OneTodo(todo));
  }

  // ---------------------------------------------------------------- PUT

  /** The `data` of the update: one entry per field present in the body. */
  function PatchOf(body: PutBody): (p: Patch)
    ensures p.title.Some? <==> body.title.Present?
    ensures body.title.Present? ==> p.title.value == body.title.value
    ensures p.completed.Some? <==> body.completed.Present?
    ensures body.completed.Present? ==> p.completed.value == body.completed.value
    ensures p.deadline.Some? <==> body.deadline.Present?
    ensures body.deadline.Present? && !IsTruthy(body.deadline.value) ==> p.deadline == Some(None)
    ensures body.deadline.Present? && IsTruthy(body.deadline.value) ==> p.deadline == Some(Some(body.deadline.value.text.ms))
  {
    Patch(match body.title case Present(s) => Some(s) case Absent => None,
          match body.completed case Present(b) => Some(b) case Absent => None,
          match body.deadline case Present(d) => Some(DateOf(d)) case Absent => None)
  }

  /** What PUT does to a row: present fields are written, absent ones kept; a
      present deadline that is `null` or `""` clears it; id and createdAt never change. */
  lemma PutWritesPresentFields(t: Todo, body: PutBody)
    ensures var r := ApplyPatch(t, PatchOf(body));
      && r.id == t.id && r.createdAt == t.createdAt
      && r.title == (if body.title.Present? then body.title.value else t.title)
      && r.completed == (if body.completed.Present? then body.completed.value else t.completed)
      && (body.deadline.Absent? ==> r.deadline == t.deadline)
      && (body.deadline.Present? && !IsTruthy(body.deadline.value) ==> r.deadline == None)
      && (body.deadline.Present? && IsTruthy(body.deadline.value) ==>
            r.deadline == Some(body.deadline.value.text.ms))
  {
  }

  /** PUT: the row with the body's id gets the patch; an unknown id throws. */
  method Put(store: TodoTable, body: PutBody) returns (reply: Reply)
    requires store.Valid()
    modifies store
    ensures store.Valid() && store.nextId == old(store.nextId)
    ensures body.id in old(store.rows) ==>
      var t := ApplyPatch(old(store.rows)[body.id], PatchOf(body));
      reply == Reply(200, OneTodo(t)) && store.rows == old(store.rows)[body.id := t]
    ensures body.id !in old(store.rows) ==>
      reply == Thrown(RecordNotFound(body.id)) && store.rows == old(store.rows)
  {
    var updated := store.Update(body.id, PatchOf(body));
    match updated
    case Some(t) => reply := Reply(200, OneTodo(t));
    case None => reply := Thrown(RecordNotFound(body.id));
  }

  // ---------------------------------------------------------------- DELETE

  /** DELETE: the row with the id is removed; an unknown id throws. */
  method Delete(store: TodoTable, id: int) returns (reply: Reply)
    requires store.Valid()
    modifies store
    ensures store.Valid() && store.nextId == old(store.nextId)
    ensures id in old(store.rows) ==> reply == Reply(200, Succeeded) && store.rows == old(store.rows) - {id}
    ensures id !in old(store.rows) ==> reply == Thrown(RecordNotFound(id)) && store.rows == old(store.rows)
  {
    var removed := store.Delete(id);
    match removed
    case Some(_) => reply := Reply(200, Succeeded);
    case None => reply := Thrown(RecordNotFound(id));
  }

  /** Once an id is gone from the table, no listing returns a row with it. */
  lemma RemovedIdIsNeverListed(store: TodoTable, id: int, filter: Option<string>)
    requires store.Valid() && id !in store.rows
    ensures forall t :: t in store.Selected(WhereFor(filter)) ==> t.id != id
  {
  }
}
