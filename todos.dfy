/**
  The task record shared by the server store and the client store
  (src/types/todo.ts), and the two lookups both stores build on:
  `some((t) => t.id === id)` and `findIndex((t) => t.id === id)`.
 */
module Todos {
  import opened Wrappers

  datatype Priority = Low | Medium | High

  /** A task. `description` is an optional field; `priority` is declared
      mandatory by the type, but the server's `create` never sets it, so a
      record may lack it at run time. Timestamps are opaque ISO strings. */
  datatype Todo = Todo(
    id: string,
    title: string,
    description: Option<string>,
    priority: Option<Priority>,
    completed: bool,
    createdAt: string,
    updatedAt: string)

  /** `todos.some((t) => t.id === id)`. */
  predicate HasId(s: seq<Todo>, id: string) {
    exists i :: 0 <= i < |s| && s[i].id == id
  }

  /** The ids of a list, in order. */
  function Ids(s: seq<Todo>): (r: seq<string>)
    ensures |r| == |s|
    ensures forall i :: 0 <= i < |s| ==> r[i] == s[i].id
  {
    seq(|s|, i requires 0 <= i < |s| => s[i].id)
  }

  /** No two entries share an id. */
  predicate UniqueIds(s: seq<Todo>) {
    forall i, j :: 0 <= i < j < |s| ==> s[i].id != s[j].id
  }

  /** `todos.findIndex((t) => t.id === id)`: the index of the first entry
      with that id, or -1 when there is none. */
  function FindIndex(s: seq<Todo>, id: string): (i: int)
    ensures -1 <= i < |s|
    ensures i == -1 <==> !HasId(s, id)
    ensures 0 <= i ==> s[i].id == id && forall j :: 0 <= j < i ==> s[j].id != id
    decreases |s|
  {
    if |s| == 0 then -1
    else if s[0].id == id then 0
    else
      var k := FindIndex(s[1..], id);
      if k == -1 then -1 else k + 1
  }

  /** The first match depends on the ids alone: two lists with the same ids
      in the same order find the same index. */
  lemma {:induction false} FindIndexFollowsIds(s: seq<Todo>, t: seq<Todo>, id: string)
    requires Ids(s) == Ids(t)
    ensures FindIndex(s, id) == FindIndex(t, id)
    decreases |s|
  {
    assert |s| == |Ids(s)| == |t|;
    if |s| > 0 {
      assert s[0].id == Ids(s)[0] == t[0].id;
      assert Ids(s[1..]) == Ids(s)[1..] == Ids(t)[1..] == Ids(t[1..]);
      FindIndexFollowsIds(s[1..], t[1..], id);
    }
  }

  /** In a list without duplicate ids, the first match is the only match. */
  lemma FindIndexUnique(s: seq<Todo>, id: string, k: int)
    requires UniqueIds(s)
    requires 0 <= k < |s| && s[k].id == id
    ensures FindIndex(s, id) == k
  {
  }
}
