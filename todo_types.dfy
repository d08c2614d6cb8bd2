/** Values shared by the route handlers and the page: the stored todo row, the JSON
    shape the page receives, and the request bodies the page sends. */
module TodoTypes {

  datatype Option<+T> = None | Some(value: T)

  /** A property of a JSON request body: left out (`undefined`) or present. */
  datatype Field<+T> = Absent | Present(value: T)

  /** The text of a date: the empty string, or a non-empty date string, represented
      by the millisecond timestamp that `new Date(text)` gives for it. */
  datatype DateText = Blank | Stamp(ms: int)

  /** A JSON value in a date position: `null` or a string. */
  datatype JsonDate = Null | Text(text: DateText)

  /** A row of the todo table. `deadline` and `createdAt` are millisecond timestamps. */
  datatype Todo = Todo(id: int, title: string, completed: bool, deadline: Option<int>, createdAt: int)

  /** A row as the page receives it: `Response.json` turns the deadline into an ISO
      string (never empty) or `null`. */
  datatype TodoJson = TodoJson(id: int, title: string, completed: bool, deadline: Option<DateText>)

  datatype PostBody = PostBody(title: Field<string>, deadline: Field<JsonDate>)

  datatype PutBody = PutBody(id: int, title: Field<string>, completed: Field<bool>, deadline: Field<JsonDate>)

  /** A request to `/api/todos`: the query parameters of GET (`null` when missing)
      or the JSON body of POST, PUT and DELETE. */
  datatype Request =
    | ListQuery(filter: Option<string>, sort: Option<string>)
    | PostRequest(post: PostBody)
    | PutRequest(put: PutBody)
    | DeleteRequest(id: int)

  /** JavaScript truthiness of a date value: `null` and `""` are falsy. */
  predicate IsTruthy(d: JsonDate) {
    d.Text? && d.text.Stamp?
  }

  /** `body.deadline ? new Date(body.deadline) : null` for a present value. */
  function DateOf(d: JsonDate): (r: Option<int>)
    ensures r.Some? <==> IsTruthy(d)
    ensures IsTruthy(d) ==> r == Some(d.text.ms)
  {
    match d
    case Text(Stamp(ms)) => Some(ms)
    case _ => None
  }

  /** Serialisation of a row by `Response.json`: a `Date` becomes a non-empty ISO string. */
  function ToJson(t: Todo): (j: TodoJson)
    ensures j.id == t.id && j.title == t.title && j.completed == t.completed
    ensures j.deadline.None? <==> t.deadline.None?
    ensures t.deadline.Some? ==> j.deadline == Some(Stamp(t.deadline.value))
  {
    TodoJson(t.id, t.title, t.completed,
             match t.deadline case None => None case Some(ms) => Some(Stamp(ms)))
  }

  /** Reading a serialised date back with `new Date(...)` gives the stored timestamp. */
  lemma DateRoundTrip(t: Todo)
    ensures t.deadline.Some? ==> ToJson(t).deadline.Some? && DateOf(Text(ToJson(t).deadline.value)) == t.deadline
  {
  }
}
