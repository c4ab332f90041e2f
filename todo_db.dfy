/**
  The server's in-memory task store (src/server/db.ts): one module-level
  list of tasks, looked up by id and changed in place by `create`
  (push), `update` (index overwrite), `delete` (splice) and `toggle`
  (field flip). The random id and the clock reading are parameters.

  Each mutating method is tied to a function of the old list
  (`Created`, `Updated`, `Deleted`, `Toggled`); the lemmas below are
  stated about those functions.
 */
module TodoDb {
  import opened Wrappers
  import opened Todos
  import TodoLists

  /** `Partial<Omit<Todo, "id">>`: every field but the id may be given.
      A given `updatedAt` is always overwritten by the clock. */
  datatype Updates = Updates(
    title: Option<string>,
    description: Option<string>,
    priority: Option<Priority>,
    completed: Option<bool>,
    createdAt: Option<string>,
    updatedAt: Option<string>)

  /** The record `create` builds: no priority, not completed, both
      timestamps the current time. */
  function NewTodo(id: string, title: string, description: Option<string>, now: string): (t: Todo)
    ensures t.id == id && t.title == title && t.description == description
    ensures t.priority == None && !t.completed
    ensures t.createdAt == now && t.updatedAt == now
  {
    Todo(id, title, description, None, false, now, now)
  }

  /** `{ ...todo, ...updates, updatedAt: now }`: a field given in
      `updates` overrides; the id is never touched. */
  function ApplyUpdates(t: Todo, u: Updates, now: string): (r: Todo)
    ensures r.id == t.id && r.updatedAt == now
    ensures r.title == u.title.GetOr(t.title)
    ensures r.description == (if u.description.Some? then u.description else t.description)
    ensures r.priority == (if u.priority.Some? then u.priority else t.priority)
    ensures r.completed == u.completed.GetOr(t.completed)
    ensures r.createdAt == u.createdAt.GetOr(t.createdAt)
  {
    t.(title := u.title.GetOr(t.title),
       description := if u.description.Some? then u.description else t.description,
       priority := if u.priority.Some? then u.priority else t.priority,
       completed := u.completed.GetOr(t.completed),
       createdAt := u.createdAt.GetOr(t.createdAt),
       updatedAt := now)
  }

  /** `todo.completed = !todo.completed; todo.updatedAt = now`. */
  function Flip(t: Todo, now: string): (r: Todo)
    ensures r.completed != t.completed && r.updatedAt == now
    ensures r.(completed := t.completed, updatedAt := t.updatedAt) == t
  {
    t.(completed := !t.completed, updatedAt := now)
  }

  /** The list after `create`. */
  function Created(s: seq<Todo>, t: Todo): (r: seq<Todo>)
    ensures |r| == |s| + 1 && r[|s|] == t
    ensures forall i :: 0 <= i < |s| ==> r[i] == s[i]
  {
    s + [t]
  }

  /** The list after `update`: the first match is overwritten, or nothing
      changes when the id is absent. */
  function Updated(s: seq<Todo>, id: string, u: Updates, now: string): (r: seq<Todo>)
    ensures Ids(r) == Ids(s)
    ensures !HasId(s, id) ==> r == s
  {
    var i := FindIndex(s, id);
    if i == -1 then s else s[i := ApplyUpdates(s[i], u, now)]
  }

  /** The list after `delete`: `splice(index, 1)` on the first match. */
  function Deleted(s: seq<Todo>, id: string): (r: seq<Todo>)
    ensures HasId(s, id) ==> |r| == |s| - 1
    ensures !HasId(s, id) ==> r == s
  {
    var i := FindIndex(s, id);
    if i == -1 then s else s[..i] + s[i + 1..]
  }

  /** The list after `toggle`. */
  function Toggled(s: seq<Todo>, id: string, now: string): (r: seq<Todo>)
    ensures Ids(r) == Ids(s)
    ensures !HasId(s, id) ==> r == s
  {
    var i := FindIndex(s, id);
    if i == -1 then s else s[i := Flip(s[i], now)]
  }

  class Db {
    var todos: seq<Todo>

    constructor ()
      ensures todos == []
    {
      todos := [];
    }

    /** `getAll`: the whole list. */
    method GetAll() returns (r: seq<Todo>)
      ensures r == todos
    {
      r := todos;
    }

    /** `getById`: the first record with that id, or none. */
    method GetById(id: string) returns (r: Option<Todo>)
      ensures r == None <==> !HasId(todos, id)
      ensures r.Some? ==> exists i :: 0 <= i < |todos| && todos[i] == r.value && r.value.id == id
                                      && forall j :: 0 <= j < i ==> todos[j].id != id
    {
      var i := FindIndex(todos, id);
      r := if i == -1 then None else Some(todos[i]);
    }

    /** `create`: appends one new record at the end and returns it. */
    method Create(freshId: string, title: string, description: Option<string>, now: string)
      returns (t: Todo)
      modifies this
      ensures t == NewTodo(freshId, title, description, now)
      ensures todos == Created(old(todos), t)
    {
      t := NewTodo(freshId, title, description, now);
      todos := todos + [t];
    }

    /** `update`: overwrites the first match and returns the new record;
        an absent id returns none and changes nothing. */
    method Update(id: string, updates: Updates, now: string) returns (r: Option<Todo>)
      modifies this
      ensures todos == Updated(old(todos), id, updates, now)
      ensures r == None <==> !HasId(old(todos), id)
      ensures r.Some? ==> r.value == todos[FindIndex(old(todos), id)]
    {
      var index := FindIndex(todos, id);
      if index == -1 {
        return None;
      }
      todos := todos[index := ApplyUpdates(todos[index], updates, now)];
      r := Some(todos[index]);
    }

    /** `delete`: removes the first match and reports whether there was one. */
    method Delete(id: string) returns (ok: bool)
      modifies this
      ensures ok == HasId(old(todos), id)
      ensures todos == Deleted(old(todos), id)
    {
      var index := FindIndex(todos, id);
      if index == -1 {
        return false;
      }
      todos := todos[..index] + todos[index + 1..];
      ok := true;
    }

    /** `toggle`: flips `completed` of the first match and returns it; an
        absent id returns none and changes nothing. */
    method Toggle(id: string, now: string) returns (r: Option<Todo>)
      modifies this
      ensures todos == Toggled(old(todos), id, now)
      ensures r == None <==> !HasId(old(todos), id)
      ensures r.Some? ==> r.value == todos[FindIndex(old(todos), id)]
    {
      var index := FindIndex(todos, id);
      if index == -1 {
        return None;
      }
      todos := todos[index := Flip(todos[index], now)];
      r := Some(todos[index]);
    }
  }

  // ----- properties of the operations -----

  /** `create` appends exactly one record and leaves the earlier ones as
      they were; the list stays free of duplicate ids exactly when the
      fresh id was not in use. */
  lemma CreatedAppends(s: seq<Todo>, t: Todo)
    ensures UniqueIds(s) ==> (UniqueIds(Created(s, t)) <==> !HasId(s, t.id))
  {
    var r := Created(s, t);
    if UniqueIds(s) && !HasId(s, t.id) {
      forall i, j | 0 <= i < j < |r| ensures r[i].id != r[j].id {
        if j == |s| {
          assert s[i].id != t.id;
        }
      }
    }
    if UniqueIds(r) {
      forall i | 0 <= i < |s| ensures s[i].id != t.id {
        assert r[i].id != r[|s|].id;
      }
    }
  }

  /** `update` on a present id changes that index and no other, keeps the
      length, and leaves the id there as it was. */
  lemma UpdatedOnlyTouchesMatch(s: seq<Todo>, id: string, u: Updates, now: string)
    requires HasId(s, id)
    ensures var r := Updated(s, id, u, now); var i := FindIndex(s, id);
      |r| == |s| && r[i].id == id && r[i].updatedAt == now
      && r[i] == ApplyUpdates(s[i], u, now)
      && forall j :: 0 <= j < |s| && j != i ==> r[j] == s[j]
  {
  }

  /** `toggle` on a present id flips the first match and no other entry,
      whether or not the ids are unique. */
  lemma ToggledOnlyTouchesMatch(s: seq<Todo>, id: string, now: string)
    requires HasId(s, id)
    ensures var r := Toggled(s, id, now); var i := FindIndex(s, id);
      |r| == |s| && r[i] == Flip(s[i], now)
      && forall j :: 0 <= j < |s| && j != i ==> r[j] == s[j]
  {
  }

  /** Applying the same updates at the same time twice is the same as once. */
  lemma ApplyUpdatesIdempotent(t: Todo, u: Updates, now: string)
    ensures ApplyUpdates(ApplyUpdates(t, u, now), u, now) == ApplyUpdates(t, u, now)
  {
  }

  /** `delete` removes exactly the first match and keeps the others in
      their order. */
  lemma DeletedRemovesFirstMatch(s: seq<Todo>, id: string)
    requires HasId(s, id)
    ensures var r := Deleted(s, id); var i := FindIndex(s, id);
      (forall j :: 0 <= j < i ==> r[j] == s[j])
      && (forall j :: i <= j < |r| ==> r[j] == s[j + 1])
  {
    var i := FindIndex(s, id);
    var r := Deleted(s, id);
    assert r == s[..i] + s[i + 1..];
    forall j | i <= j < |r| ensures r[j] == s[j + 1] {
      assert r[j] == s[i + 1..][j - i];
    }
  }

  /** Toggling the same id twice restores `completed`; only the first
      match's `updatedAt` ends up different. */
  lemma ToggledTwice(s: seq<Todo>, id: string, now1: string, now2: string)
    ensures var i := FindIndex(s, id);
      Toggled(Toggled(s, id, now1), id, now2)
        == if i == -1 then s else s[i := s[i].(updatedAt := now2)]
  {
    var i := FindIndex(s, id);
    var s1 := Toggled(s, id, now1);
    FindIndexFollowsIds(s1, s, id);
    if i != -1 {
      assert Flip(s1[i], now2) == s[i].(updatedAt := now2);
    }
  }

  // ----- the server's list against the client's reducers -----

  /** In a list without duplicate ids, the server's `splice` is the
      client's `filter`: a client that mirrors the server and applies
      `deleteTodo` stays equal to it. */
  lemma DeletedIsRemoveId(s: seq<Todo>, id: string)
    requires UniqueIds(s)
    ensures Deleted(s, id) == TodoLists.RemoveId(s, id)
  {
    var i := FindIndex(s, id);
    if i == -1 {
      TodoLists.RemoveIdAbsent(s, id);
    } else {
      var before, after := s[..i], s[i + 1..];
      assert !HasId(before, id);
      assert !HasId(after, id) by {
        forall k | 0 <= k < |after| ensures after[k].id != id {
          assert after[k] == s[i + 1 + k];
        }
      }
      assert s == before + ([s[i]] + after);
      RemoveOnlyMatch(before, s[i], after, id);
    }
  }

  /** Filtering out the id of the one entry that has it is cutting that
      entry out. */
  lemma RemoveOnlyMatch(before: seq<Todo>, x: Todo, after: seq<Todo>, id: string)
    requires !HasId(before, id) && !HasId(after, id) && x.id == id
    ensures TodoLists.RemoveId(before + ([x] + after), id) == before + after
  {
    calc {
      TodoLists.RemoveId(before + ([x] + after), id);
      { TodoLists.RemoveIdAppend(before, [x] + after, id); }
      TodoLists.RemoveId(before, id) + TodoLists.RemoveId([x] + after, id);
      { TodoLists.RemoveIdAbsent(before, id); }
      before + TodoLists.RemoveId([x] + after, id);
      { assert ([x] + after)[1..] == after; }
      before + TodoLists.RemoveId(after, id);
      { TodoLists.RemoveIdAbsent(after, id); }
      before + after;
    }
  }

  /** In a list without duplicate ids, the server's in-place `toggle` is
      the client's `map` with the record the server returns: a client that
      mirrors the server and applies `toggleTodo` stays equal to it. */
  lemma ToggledIsReplaceById(s: seq<Todo>, id: string, now: string)
    requires UniqueIds(s) && HasId(s, id)
    ensures var i := FindIndex(s, id);
      Toggled(s, id, now) == TodoLists.ReplaceById(s, id, Flip(s[i], now))
  {
    var i := FindIndex(s, id);
    var t' := Flip(s[i], now);
    var r := TodoLists.ReplaceById(s, id, t');
    assert Toggled(s, id, now) == s[i := t'];
    forall j | 0 <= j < |s| ensures s[i := t'][j] == r[j] {
      if j != i && s[j].id == id {
        FindIndexUnique(s, id, j);
      }
    }
  }

  /** The same for `update` and the client's `updateTodo`. */
  lemma UpdatedIsReplaceById(s: seq<Todo>, id: string, u: Updates, now: string)
    requires UniqueIds(s) && HasId(s, id)
    ensures var i := FindIndex(s, id);
      Updated(s, id, u, now) == TodoLists.ReplaceById(s, id, ApplyUpdates(s[i], u, now))
  {
    var i := FindIndex(s, id);
    var t' := ApplyUpdates(s[i], u, now);
    var r := TodoLists.ReplaceById(s, id, t');
    assert Updated(s, id, u, now) == s[i := t'];
    forall j | 0 <= j < |s| ensures s[i := t'][j] == r[j] {
      if j != i && s[j].id == id {
        FindIndexUnique(s, id, j);
      }
    }
  }
}
