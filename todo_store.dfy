/** The todo table behind `prisma.todo`. Its behaviour rests on these assumptions
    about the store: `create` assigns a fresh id (an auto-incremented counter that
    never reuses a value), sets `completed` to its schema default `false` and takes
    `createdAt` from the clock; `update` writes only the fields listed in its `data`;
    `update` and `delete` fail on an id that is not in the table; `findMany` returns
    every matching row once, ordered by its `orderBy` list. */
module TodoStore {
  import opened TodoTypes
  import opened TodoQuery

  class TodoTable {
    /** The rows, by id. */
    var rows: map<int, Todo>
    /** The id the next `create` assigns. */
    var nextId: int

    ghost predicate Valid()
      reads this
    {
      && 1 <= nextId
      && forall k :: k in rows ==> rows[k].id == k && 1 <= k < nextId
    }

    /** The rows `findMany` returns for `where`, as a set. */
    ghost function Selected(where: Where): (s: set<Todo>)
      reads this
      requires Valid()
      ensures forall t :: t in s <==> t.id in rows && rows[t.id] == t && Matches(where, t)
    {
      set k | k in rows && Matches(where, rows[k]) :: rows[k]
    }

    /** An empty table whose first id is 1. */
    constructor ()
      ensures Valid() && rows == map[] && nextId == 1
    {
      rows := map[];
      nextId := 1;
    }

    /** `prisma.todo.findMany({ where, orderBy })`, as a scan of the ids in key order
        that inserts each matching row into the ordered result. */
    method FindMany(where: Where, orderBy: seq<OrderKey>) returns (list: seq<Todo>)
      requires Valid()
      ensures Sorted(orderBy, list)
      ensures multiset(list) == multiset(Selected(where))
    {
      list := [];
      for id := 1 to nextId
        invariant Sorted(orderBy, list)
        invariant multiset(list) == multiset(set k | k in rows && k < id && Matches(where, rows[k]) :: rows[k])
      {
        ghost var before := set k | k in rows && k < id && Matches(where, rows[k]) :: rows[k];
        ghost var after := set k | k in rows && k < id + 1 && Matches(where, rows[k]) :: rows[k];
        if id in rows && Matches(where, rows[id]) {
          assert rows[id] !in before;
          assert after == before + {rows[id]};
          list := Insert(orderBy, list, rows[id]);
        } else {
          assert after == before;
        }
      }
      assert (set k | k in rows && k < nextId && Matches(where, rows[k]) :: rows[k]) == Selected(where);
    }

    /** `prisma.todo.create({ data: { title, deadline } })` at clock time `now`. */
    method Create(title: string, deadline: Option<int>, now: int) returns (t: Todo)
      requires Valid()
      modifies this
      ensures Valid()
      ensures t == Todo(old(nextId), title, false, deadline, now)
      ensures t.id !in old(rows)
      ensures rows == old(rows)[t.id := t] && nextId == old(nextId) + 1
    {
      t := Todo(nextId, title, false, deadline, now);
      rows := rows[nextId := t];
      nextId := nextId + 1;
    }

    /** `prisma.todo.update({ where: { id }, data: patch })`; `None` when the id is
        unknown, in which case the store throws and the table is unchanged. */
    method Update(id: int, patch: Patch) returns (r: Option<Todo>)
      requires Valid()
      modifies this
      ensures Valid() && nextId == old(nextId)
      ensures id in old(rows) ==> r == Some(ApplyPatch(old(rows)[id], patch)) && rows == old(rows)[id := r.value]
      ensures id !in old(rows) ==> r == None && rows == old(rows)
    {
      if id in rows {
        var t := ApplyPatch(rows[id], patch);
        rows := rows[id := t];
        r := Some(t);
      } else {
        r := None;
      }
    }

    /** `prisma.todo.delete({ where: { id } })`; returns the removed row, or `None`
        when the id is unknown, in which case the store throws and the table is unchanged. */
    method Delete(id: int) returns (r: Option<Todo>)
      requires Valid()
      modifies this
      ensures Valid() && nextId == old(nextId)
      ensures id in old(rows) ==> r == Some(old(rows)[id]) && rows == old(rows) - {id}
      ensures id !in old(rows) ==> r == None && rows == old(rows)
    {
      if id in rows {
        r := Some(rows[id]);
        rows := rows - {id};
      } else {
        r := None;
      }
    }
  }
}
