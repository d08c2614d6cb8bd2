/** What the page's requests do once the route handlers serve them. */
module Scenarios {
  import opened TodoTypes
  import opened TodoQuery
  import opened TodoStore
  import opened TodoRoute
  import opened HomePage
  import opened JsText

  /** The toggle body through PUT: `completed` becomes the negation of the page's
      copy, and title, deadline, id and createdAt stay as stored. */
  lemma ToggleThroughPut(row: Todo, shown: TodoJson)
    requires shown.id == row.id
    ensures ApplyPatch(row, PatchOf(PutBody(shown.id, Absent, Present(!shown.completed), Absent)))
         == row.(completed := !shown.completed)
  {
  }

  /** Saving an edit draft seeded from a row, unchanged, writes the row's own values back. */
  lemma SaveUneditedDraftKeepsRow(row: Todo)
    ensures ApplyPatch(row, PatchOf(PutBody(row.id, Present(row.title), Absent,
                                            Present(EditDraftOrNull(ToJson(row).deadline))))) == row
  {
  }

  /** Saving an edit whose deadline input was cleared removes the deadline. */
  lemma SaveClearedDeadline(row: Todo, title: string)
    ensures ApplyPatch(row, PatchOf(PutBody(row.id, Present(title), Absent, Present(EditDraftOrNull(Some(Blank))))))
         == row.(title := title, deadline := None)
  {
  }

  /** A body `addTodo` sends always passes the title check of POST, and its
      deadline is stored exactly when the draft was not blank. */
  lemma AddBodyPassesPost(input: string, d: DateText)
    requires !IsAllWhitespace(input)
    ensures HasTitle(PostBody(Present(input), Present(DraftOrNull(d))))
    ensures DeadlineOf(Present(DraftOrNull(d))) == (if d.Stamp? then Some(d.ms) else None)
  {
  }

  /** The page toggles a row it shows and the route serves the PUT. */
  method ToggleOnServer(page: Home, store: TodoTable, shown: TodoJson) returns (reply: Reply)
    requires store.Valid() && shown.id in store.rows
    modifies store
    ensures store.Valid()
    ensures reply == Reply(200, OneTodo(old(store.rows)[shown.id].(completed := !shown.completed)))
    ensures store.rows == old(store.rows)[shown.id := old(store.rows)[shown.id].(completed := !shown.completed)]
  {
    var req := page.ToggleTodo(shown);
    ToggleThroughPut(store.rows[shown.id], shown);
    reply := Put(store, req.put);
  }

  /** The page opens a row for editing and saves it without touching the draft.
      The table ends as it was either way; edit mode ends only when the title is
      not blank, since a blank title makes the save a no-op. */
  method SaveUneditedDraft(page: Home, store: TodoTable, row: Todo)
    requires store.Valid() && row.id in store.rows && store.rows[row.id] == row
    modifies page, store
    ensures store.Valid() && store.rows == old(store.rows)
    ensures !IsAllWhitespace(row.title) ==>
      page.editingId == None && page.editingTitle == "" && page.editingDeadline == None
    ensures IsAllWhitespace(row.title) ==>
      page.editingId == Some(row.id) && page.editingTitle == row.title && page.editingDeadline == ToJson(row).deadline
  {
    page.StartEdit(ToJson(row));
    var req := page.HandleEditSave(ToJson(row), true);
    if req.Some? {
      SaveUneditedDraftKeepsRow(row);
      var reply := Put(store, req.value.put);
    }
  }

  /** Create "Buy milk" without a deadline, look at it under "all" and under
      "completed", toggle it, and look again under "completed". */
  method BuyMilk(store: TodoTable, now: int) returns (created: Todo, all: seq<Todo>, before: seq<Todo>, after: seq<Todo>)
    requires store.Valid()
    modifies store
    ensures store.Valid()
    ensures created == Todo(old(store.nextId), "Buy milk", false, None, now)
    ensures created.id !in old(store.rows)
    ensures created in all
    ensures forall t :: t in before ==> t.id != created.id
    ensures created.(completed := true) in after
  {
    var page := new Home(now);
    page.TypeInput("Buy milk");
    assert !IsJsWhitespace(page.input[0]);
    var add := page.AddTodo(true);
    var posted := Post(store, add.value.post, now);
    created := posted.body.todo;

    var req := page.ListRequest();
    var listed := Get(store, req.filter, req.sort);
    all := listed.body.todos;

    page.SelectFilter("completed");
    req := page.ListRequest();
    listed := Get(store, req.filter, req.sort);
    before := listed.body.todos;

    var toggled := ToggleOnServer(page, store, ToJson(created));
    req := page.ListRequest();
    listed := Get(store, req.filter, req.sort);
    after := listed.body.todos;
  }
}
