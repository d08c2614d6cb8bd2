/** The meaning of the store's query and update arguments, as the route handlers use
    them: a `where` filter on `completed`, an `orderBy` list of sort keys compared
    lexicographically, and the `data` patch of an update. */
module TodoQuery {
  import opened TodoTypes

  /** `Prisma.TodoWhereInput` restricted to what the handlers set: an optional
      required value of `completed`. */
  datatype Where = Where(completed: Option<bool>)

  predicate Matches(w: Where, t: Todo) {
    w.completed.None? || t.completed == w.completed.value
  }

  /** One entry of an `orderBy` list. */
  datatype OrderKey = CreatedAtDesc | DeadlineAsc

  datatype Cmp = Before | Tie | After

  function Flip(c: Cmp): Cmp {
    match c
    case Before => After
    case Tie => Tie
    case After => Before
  }

  function CompareInts(x: int, y: int): (c: Cmp)
    ensures c == Before <==> x < y
    ensures c == Tie <==> x == y
  {
    if x < y then Before else if x == y then Tie else After
  }

  /** How `a` and `b` compare under one sort key. Rows without a deadline sort
      after every row with one under `deadline: "asc"` (nulls last). */
  function CompareBy(k: OrderKey, a: Todo, b: Todo): Cmp {
    match k
    case CreatedAtDesc => CompareInts(b.createdAt, a.createdAt)
    case DeadlineAsc =>
      match (a.deadline, b.deadline)
      case (Some(x), Some(y)) => CompareInts(x, y)
      case (Some(_), None) => Before
      case (None, Some(_)) => After
      case (None, None) => Tie
  }

  lemma CompareByFlip(k: OrderKey, a: Todo, b: Todo)
    ensures CompareBy(k, b, a) == Flip(CompareBy(k, a, b))
  {
  }

  /** Comparisons under one key chain: Before/Tie compose to the strongest of the two. */
  lemma CompareByChain(k: OrderKey, a: Todo, b: Todo, c: Todo)
    requires CompareBy(k, a, b) != After && CompareBy(k, b, c) != After
    ensures CompareBy(k, a, c) != After
    ensures CompareBy(k, a, c) == Tie ==> CompareBy(k, a, b) == Tie && CompareBy(k, b, c) == Tie
  {
  }

  /** `a` may be listed before `b` under the key list `keys`: the first key that
      separates them decides, and rows no key separates may come in either order. */
  predicate Le(keys: seq<OrderKey>, a: Todo, b: Todo)
    decreases |keys|
  {
    if keys == [] then true
    else match CompareBy(keys[0], a, b)
      case Before => true
      case After => false
      case Tie => Le(keys[1..], a, b)
  }

  lemma {:induction false} LeReflexive(keys: seq<OrderKey>, a: Todo)
    ensures Le(keys, a, a)
    decreases |keys|
  {
    if keys != [] {
      assert CompareBy(keys[0], a, a) == Tie;
      LeReflexive(keys[1..], a);
    }
  }

  lemma {:induction false} LeTotal(keys: seq<OrderKey>, a: Todo, b: Todo)
    ensures Le(keys, a, b) || Le(keys, b, a)
    decreases |keys|
  {
    if keys != [] {
      CompareByFlip(keys[0], a, b);
      if CompareBy(keys[0], a, b) == Tie {
        LeTotal(keys[1..], a, b);
      }
    }
  }

  lemma {:induction false} LeTransitive(keys: seq<OrderKey>, a: Todo, b: Todo, c: Todo)
    requires Le(keys, a, b) && Le(keys, b, c)
    ensures Le(keys, a, c)
    decreases |keys|
  {
    if keys != [] {
      var k := keys[0];
      CompareByChain(k, a, b, c);
      if CompareBy(k, a, c) == Tie {
        LeTransitive(keys[1..], a, b, c);
      }
    }
  }

  /** Every row is listed before every later row, as `findMany` returns them. */
  predicate Sorted(keys: seq<OrderKey>, s: seq<Todo>) {
    forall i, j :: 0 <= i < j < |s| ==> Le(keys, s[i], s[j])
  }

  /** A row that may precede every element of a sorted list may head it. */
  lemma ConsSorted(keys: seq<OrderKey>, x: Todo, s: seq<Todo>)
    requires Sorted(keys, s)
    requires forall y :: y in s ==> Le(keys, x, y)
    ensures Sorted(keys, [x] + s)
  {
    var r := [x] + s;
    forall i, j | 0 <= i < j < |r| ensures Le(keys, r[i], r[j]) {
      assert r[j] == s[j - 1];
      if i > 0 { assert r[i] == s[i - 1]; }
    }
  }

  /** A row that may precede the head of a sorted list may precede all of it. */
  lemma PrecedesAll(keys: seq<OrderKey>, t: Todo, s: seq<Todo>)
    requires Sorted(keys, s) && s != [] && Le(keys, t, s[0])
    ensures forall y :: y in s ==> Le(keys, t, y)
  {
    forall y | y in s ensures Le(keys, t, y) {
      var j :| 0 <= j < |s| && s[j] == y;
      if j > 0 { LeTransitive(keys, t, s[0], y); }
    }
  }

  /** The head of a sorted list may precede every row of a list made of its tail and `t`. */
  lemma HeadPrecedesRest(keys: seq<OrderKey>, s: seq<Todo>, t: Todo, rest: seq<Todo>)
    requires Sorted(keys, s) && s != [] && Le(keys, s[0], t)
    requires multiset(rest) == multiset(s[1..]) + multiset{t}
    ensures forall y :: y in rest ==> Le(keys, s[0], y)
  {
    forall y | y in rest ensures Le(keys, s[0], y) {
      assert y in multiset(rest);
      if y != t {
        assert y in multiset(s[1..]);
        var j :| 1 <= j < |s| && s[j] == y;
      }
    }
  }

  /** Places `t` into the sorted list `s`, after every row it may not precede. */
  function Insert(keys: seq<OrderKey>, s: seq<Todo>, t: Todo): (r: seq<Todo>)
    requires Sorted(keys, s)
    ensures Sorted(keys, r)
    ensures multiset(r) == multiset(s) + multiset{t}
    decreases |s|
  {
    if s == [] then [t]
    else if Le(keys, t, s[0]) then
      PrecedesAll(keys, t, s);
      ConsSorted(keys, t, s);
      [t] + s
    else
      LeTotal(keys, t, s[0]);
      var rest := Insert(keys, s[1..], t);
      HeadPrecedesRest(keys, s, t, rest);
      ConsSorted(keys, s[0], rest);
      assert s == [s[0]] + s[1..];
      [s[0]] + rest
  }

  /** The `data` argument of an update: the fields to write, each `None` when left out. */
  datatype Patch = Patch(title: Option<string>, completed: Option<bool>, deadline: Option<Option<int>>)

  /** The row after an update with `p`: the listed fields are written, nothing else. */
  function ApplyPatch(t: Todo, p: Patch): (r: Todo)
    ensures r.id == t.id && r.createdAt == t.createdAt
    ensures r.title == (if p.title.Some? then p.title.value else t.title)
    ensures r.completed == (if p.completed.Some? then p.completed.value else t.completed)
    ensures r.deadline == (if p.deadline.Some? then p.deadline.value else t.deadline)
  {
    Todo(t.id,
         match p.title case Some(s) => s case None => t.title,
         match p.completed case Some(b) => b case None => t.completed,
         match p.deadline case Some(d) => d case None => t.deadline,
         t.createdAt)
  }

  /** An empty patch leaves the row as it is. */
  lemma EmptyPatchIsIdentity(t: Todo)
    ensures ApplyPatch(t, Patch(None, None, None)) == t
  {
  }
}
