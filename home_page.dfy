/** The state and action handlers of the to-do page. Each handler is one atomic
    transition of the page state; where the page would call `fetch`, the handler
    returns the request it would send. */
module HomePage {
  import opened TodoTypes
  import opened JsText

  /** 24 hours in milliseconds. */
  const DayMs: int := 24 * 60 * 60 * 1000

  /** A row is shown as near its deadline when it has one and the deadline is less
      than a day after `now` (past deadlines included). */
  predicate IsNearDeadline(t: TodoJson, now: int)
    ensures IsNearDeadline(t, now) <==> t.deadline.Some? && t.deadline.value.Stamp? && t.deadline.value.ms < now + DayMs
  {
    match t.deadline
    case Some(Stamp(ms)) => ms - now < DayMs
    case _ => false
  }

  lemma NearDeadlineOfStoredRow(row: Todo, now: int)
    ensures IsNearDeadline(ToJson(row), now) <==> row.deadline.Some? && row.deadline.value - now < 86400000
  {
  }

  lemma PastDeadlineIsNear(t: TodoJson, now: int)
    requires t.deadline.Some? && t.deadline.value.Stamp? && t.deadline.value.ms <= now
    ensures IsNearDeadline(t, now)
  {
  }

  /** Being near a deadline is never undone by time passing. */
  lemma NearDeadlineStaysNear(t: TodoJson, now: int, later: int)
    requires IsNearDeadline(t, now) && now <= later
    ensures IsNearDeadline(t, later)
  {
  }

  /** `draft || null` for the new-todo deadline input. */
  function DraftOrNull(d: DateText): (j: JsonDate)
    ensures IsTruthy(j) <==> d.Stamp?
    ensures j == (if d.Stamp? then Text(d) else Null)
  {
    if d.Stamp? then Text(d) else Null
  }

  /** `editingDeadline || null`: a missing or blank draft is sent as `null`. */
  function EditDraftOrNull(d: Option<DateText>): (j: JsonDate)
    ensures IsTruthy(j) <==> d.Some? && d.value.Stamp?
    ensures j == (if d.Some? && d.value.Stamp? then Text(d.value) else Null)
  {
    match d
    case Some(Stamp(ms)) => Text(Stamp(ms))
    case _ => Null
  }

  /** The outcome of the list fetch: the parsed response, or any exception. */
  datatype FetchResult = Loaded(todos: seq<TodoJson>) | Failed

  /** The page state as one record. */
  datatype PageState = PageState(
    todos: seq<TodoJson>,
    input: string,
    deadline: DateText,
    editingId: Option<int>,
    editingTitle: string,
    editingDeadline: Option<DateText>,
    filter: string,
    sort: string)

  class Home {
    var todos: seq<TodoJson>
    var input: string
    var deadline: DateText
    var editingId: Option<int>
    var editingTitle: string
    var editingDeadline: Option<DateText>
    var filter: string
    var sort: string
    /** `Date.now()`, read once when the page mounts. */
    const now: int

    function State(): PageState
      reads this
    {
      PageState(todos, input, deadline, editingId, editingTitle, editingDeadline, filter, sort)
    }

    /** The initial state of every `useState`. */
    constructor (now: int)
      ensures State() == PageState([], "", Blank, None, "", None, "all", "newest")
      ensures this.now == now
    {
      todos, input, deadline := [], "", Blank;
      editingId, editingTitle, editingDeadline := None, "", None;
      filter, sort := "all", "newest";
      this.now := now;
    }

    /** The request of the list fetch, with the current filter and sort. */
    method ListRequest() returns (req: Request)
      ensures req == ListQuery(Some(filter), Some(sort))
    {
      req := ListQuery(Some(filter), Some(sort));
    }

    /** The end of the list fetch: the response replaces the list, a failure empties it. */
    method ReceiveTodos(result: FetchResult)
      modifies this
      ensures result.Loaded? ==> State() == old(State()).(todos := result.todos)
      ensures result.Failed? ==> State() == old(State()).(todos := [])
    {
      match result
      case Loaded(list) => todos := list;
      case Failed => todos := [];
    }

    /** A filter button. */
    method SelectFilter(f: string)
      modifies this
      ensures State() == old(State()).(filter := f)
    {
      filter := f;
    }

    /** The sort selector. */
    method SelectSort(s: string)
      modifies this
      ensures State() == old(State()).(sort := s)
    {
      sort := s;
    }

    /** Typing into the new-todo title input. */
    method TypeInput(s: string)
      modifies this
      ensures State() == old(State()).(input := s)
    {
      input := s;
    }

    /** Picking a date in the new-todo deadline input (`Blank` when cleared). */
    method TypeDeadline(d: DateText)
      modifies this
      ensures State() == old(State()).(deadline := d)
    {
      deadline := d;
    }

    /** Typing into the edit title input. */
    method TypeEditingTitle(s: string)
      modifies this
      ensures State() == old(State()).(editingTitle := s)
    {
      editingTitle := s;
    }

    /** Picking a date in the edit deadline input: the input's value, a string. */
    method TypeEditingDeadline(d: DateText)
      modifies this
      ensures State() == old(State()).(editingDeadline := Some(d))
    {
      editingDeadline := Some(d);
    }

    /** `addTodo`: nothing for a blank title; otherwise a POST of the untrimmed
        title and the deadline draft. The drafts are cleared only when the fetch
        resolves (`resolved`); a rejected fetch ends the handler before its setters. */
    method AddTodo(resolved: bool) returns (req: Option<Request>)
      modifies this
      ensures IsAllWhitespace(old(input)) ==> req == None && State() == old(State())
      ensures !IsAllWhitespace(old(input)) ==>
        req == Some(PostRequest(PostBody(Present(old(input)), Present(DraftOrNull(old(deadline))))))
      ensures !IsAllWhitespace(old(input)) && resolved ==> State() == old(State()).(input := "", deadline := Blank)
      ensures !IsAllWhitespace(old(input)) && !resolved ==> State() == old(State())
    {
      TrimIsEmptyIffAllWhitespace(input);
      if Trim(input) == [] {
        return None;
      }
      req := Some(PostRequest(PostBody(Present(input), Present(DraftOrNull(deadline)))));
      if resolved {
        input := "";
        deadline := Blank;
      }
    }

    /** `toggleTodo`: a PUT carrying only the id and the negation of the row's
        `completed` as the page shows it; the page state is not touched. */
    method ToggleTodo(t: TodoJson) returns (req: Request)
      ensures req == PutRequest(PutBody(t.id, Absent, Present(!t.completed), Absent))
    {
      req := PutRequest(PutBody(t.id, Absent, Present(!t.completed), Absent));
    }

    /** `deleteTodo`: a DELETE of the id; the page state is not touched. */
    method DeleteTodo(id: int) returns (req: Request)
      ensures req == DeleteRequest(id)
    {
      req := DeleteRequest(id);
    }

    /** The Edit button: the row becomes the one row in edit mode, and its title and
        deadline replace whatever draft there was. */
    method StartEdit(t: TodoJson)
      modifies this
      ensures State() == old(State()).(editingId := Some(t.id), editingTitle := t.title, editingDeadline := t.deadline)
    {
      editingId := Some(t.id);
      editingTitle := t.title;
      editingDeadline := t.deadline;
    }

    /** `handleEditSave`: nothing for a blank draft title; otherwise a PUT of the
        row's id, the untrimmed draft title and the draft deadline. Edit mode is left
        only when the fetch resolves (`resolved`); a rejected fetch keeps it. */
    method HandleEditSave(t: TodoJson, resolved: bool) returns (req: Option<Request>)
      modifies this
      ensures IsAllWhitespace(old(editingTitle)) ==> req == None && State() == old(State())
      ensures !IsAllWhitespace(old(editingTitle)) ==>
        req == Some(PutRequest(PutBody(t.id, Present(old(editingTitle)), Absent,
                                       Present(EditDraftOrNull(old(editingDeadline))))))
      ensures !IsAllWhitespace(old(editingTitle)) && resolved ==>
        State() == old(State()).(editingId := None, editingTitle := "", editingDeadline := None)
      ensures !IsAllWhitespace(old(editingTitle)) && !resolved ==> State() == old(State())
    {
      TrimIsEmptyIffAllWhitespace(editingTitle);
      if Trim(editingTitle) == [] {
        return None;
      }
      req := Some(PutRequest(PutBody(t.id, Present(editingTitle), Absent, Present(EditDraftOrNull(editingDeadline)))));
      if resolved {
        editingId := None;
        editingTitle := "";
        editingDeadline := None;
      }
    }
  }
}
