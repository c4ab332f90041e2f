/**
  The list reducers of the client store (src/store/useTodoStore.ts): each
  builds a new task list from the current one, the way the store's `set`
  callbacks do with `some`, `filter`, `map` and spread. The same three
  reducers serve the peer-merge rules and the local post-request updates.

  There is no timestamp comparison and no record of deleted ids: a peer's
  record always wins on `toggle`, and a deleted id can come back through a
  later `add`. The lemmas at the end state both facts.
 */
module TodoLists {
  import opened Todos

  /** `addTodoFromPeer`: keep the list when some entry already has the
      incoming id, else append the incoming record at the end. */
  function AddIfAbsent(s: seq<Todo>, t: Todo): (r: seq<Todo>)
    ensures HasId(r, t.id)
    ensures s <= r && |r| <= |s| + 1
    ensures |r| == |s| + 1 ==> r[|s|] == t
  {
    if HasId(s, t.id) then s
    else
      assert (s + [t])[|s|] == t;
      s + [t]
  }

  /** `filter((t) => t.id !== id)`. */
  function RemoveId(s: seq<Todo>, id: string): (r: seq<Todo>)
    ensures !HasId(r, id)
    ensures |r| <= |s|
    decreases |s|
  {
    if s == [] then []
    else (if s[0].id == id then [] else [s[0]]) + RemoveId(s[1..], id)
  }

  /** `map((t) => (t.id === id ? t' : t))`: every entry with that id
      becomes `t'`; every other entry stays where it is. */
  function ReplaceById(s: seq<Todo>, id: string, t': Todo): (r: seq<Todo>)
    ensures |r| == |s|
    ensures forall i :: 0 <= i < |s| ==> r[i] == if s[i].id == id then t' else s[i]
    decreases |s|
  {
    if s == [] then []
    else [if s[0].id == id then t' else s[0]] + ReplaceById(s[1..], id, t')
  }

  // ----- addTodoFromPeer -----

  /** An incoming id that is new is appended at the end and nothing else
      changes; a known id leaves the list exactly as it was. */
  lemma AddIfAbsentCases(s: seq<Todo>, t: Todo)
    ensures HasId(s, t.id) ==> AddIfAbsent(s, t) == s
    ensures !HasId(s, t.id) ==> AddIfAbsent(s, t) == s + [t]
  {
  }

  /** Delivering the same record twice (relay and direct channel) has the
      effect of delivering it once. */
  lemma AddIfAbsentIdempotent(s: seq<Todo>, t: Todo)
    ensures AddIfAbsent(AddIfAbsent(s, t), t) == AddIfAbsent(s, t)
  {
  }

  /** Dedupe by id keeps a list free of duplicate ids. */
  lemma AddIfAbsentKeepsUnique(s: seq<Todo>, t: Todo)
    requires UniqueIds(s)
    ensures UniqueIds(AddIfAbsent(s, t))
  {
    if !HasId(s, t.id) {
      var r := s + [t];
      forall i, j | 0 <= i < j < |r| ensures r[i].id != r[j].id {
        if j == |s| {
          assert s[i].id != t.id;
        }
      }
    }
  }

  // ----- filter: deleteTodoFromPeer and deleteTodo -----

  /** What remains is exactly the entries with another id. */
  lemma {:induction false} RemoveIdMembers(s: seq<Todo>, id: string, x: Todo)
    ensures x in RemoveId(s, id) <==> x in s && x.id != id
    decreases |s|
  {
    if s != [] {
      RemoveIdMembers(s[1..], id, x);
      assert s == [s[0]] + s[1..];
    }
  }

  /** Filtering distributes over concatenation, so the entries that remain
      keep their relative order. */
  lemma {:induction false} RemoveIdAppend(a: seq<Todo>, b: seq<Todo>, id: string)
    ensures RemoveId(a + b, id) == RemoveId(a, id) + RemoveId(b, id)
    decreases |a|
  {
    if a == [] {
      assert a + b == b;
    } else {
      assert (a + b)[1..] == a[1..] + b;
      RemoveIdAppend(a[1..], b, id);
    }
  }

  /** An id nobody has: the list is unchanged. */
  lemma {:induction false} RemoveIdAbsent(s: seq<Todo>, id: string)
    requires !HasId(s, id)
    ensures RemoveId(s, id) == s
    decreases |s|
  {
    if s != [] {
      assert s[0].id != id;
      assert !HasId(s[1..], id) by {
        forall i | 0 <= i < |s[1..]| ensures s[1..][i].id != id {
          assert s[1..][i] == s[i + 1];
        }
      }
      RemoveIdAbsent(s[1..], id);
      assert s == [s[0]] + s[1..];
    }
  }

  /** Deleting the same id twice is the same as deleting it once. */
  lemma RemoveIdIdempotent(s: seq<Todo>, id: string)
    ensures RemoveId(RemoveId(s, id), id) == RemoveId(s, id)
  {
    RemoveIdAbsent(RemoveId(s, id), id);
  }

  /** Removing entries keeps a list free of duplicate ids. */
  lemma {:induction false} RemoveIdKeepsUnique(s: seq<Todo>, id: string)
    requires UniqueIds(s)
    ensures UniqueIds(RemoveId(s, id))
    decreases |s|
  {
    if s != [] {
      RemoveIdKeepsUnique(s[1..], id);
      var rest := RemoveId(s[1..], id);
      var head := if s[0].id == id then [] else [s[0]];
      var r := head + rest;
      forall i, j | 0 <= i < j < |r| ensures r[i].id != r[j].id {
        if head != [] && i == 0 {
          assert r[j] in rest;
          RemoveIdMembers(s[1..], id, r[j]);
          assert r[j] in s[1..];
          var k :| 0 <= k < |s[1..]| && s[1..][k] == r[j];
          assert s[k + 1] == r[j];
        } else {
          assert r[i] == rest[i - |head|] && r[j] == rest[j - |head|];
        }
      }
    }
  }

  // ----- map: toggleTodoFromPeer, toggleTodo and updateTodo -----

  /** An id nobody has: the list is unchanged. */
  lemma ReplaceByIdAbsent(s: seq<Todo>, id: string, t': Todo)
    requires !HasId(s, id)
    ensures ReplaceById(s, id, t') == s
  {
  }

  /** Applying the same replacement twice is the same as applying it once,
      provided the replacement carries the id it replaces (as a peer's
      toggled record does). */
  lemma ReplaceByIdIdempotent(s: seq<Todo>, t': Todo)
    ensures ReplaceById(ReplaceById(s, t'.id, t'), t'.id, t') == ReplaceById(s, t'.id, t')
  {
  }

  /** A replacement that carries the id it replaces keeps every id in place,
      so a list free of duplicate ids stays so. */
  lemma ReplaceByIdKeepsIds(s: seq<Todo>, t': Todo)
    ensures Ids(ReplaceById(s, t'.id, t')) == Ids(s)
    ensures UniqueIds(s) ==> UniqueIds(ReplaceById(s, t'.id, t'))
  {
  }

  // ----- how the peer rules interact -----

  /** No record of deleted ids: an `added` arriving after a `deleted` for
      the same id puts the record back, at the end of the list. */
  lemma DeleteThenAddResurrects(s: seq<Todo>, t: Todo)
    ensures AddIfAbsent(RemoveId(s, t.id), t) == RemoveId(s, t.id) + [t]
  {
  }

  /** A `toggled` arriving after a `deleted` for the same id changes
      nothing: `map` only touches entries that are still there. */
  lemma DeleteThenReplaceIsDelete(s: seq<Todo>, id: string, t': Todo)
    ensures ReplaceById(RemoveId(s, id), id, t') == RemoveId(s, id)
  {
    ReplaceByIdAbsent(RemoveId(s, id), id, t');
  }

  /** No timestamp check: the peer's record replaces the local one even
      when its `updatedAt` is older. */
  lemma ReplaceIgnoresTimestamps(s: seq<Todo>, t': Todo, k: int)
    requires 0 <= k < |s| && s[k].id == t'.id
    ensures ReplaceById(s, t'.id, t')[k] == t'
  {
  }

  /** A delete and a replacement commute, whether or not they name the
      same id. */
  lemma {:induction false} RemoveReplaceCommute(s: seq<Todo>, id: string, t': Todo)
    ensures RemoveId(ReplaceById(s, t'.id, t'), id) == ReplaceById(RemoveId(s, id), t'.id, t')
    decreases |s|
  {
    if s != [] {
      RemoveReplaceCommute(s[1..], id, t');
      var head := if s[0].id == t'.id then t' else s[0];
      assert ReplaceById(s, t'.id, t') == [head] + ReplaceById(s[1..], t'.id, t');
      assert (head.id == id) == (s[0].id == id);
      if s[0].id != id {
        assert ReplaceById([s[0]] + RemoveId(s[1..], id), t'.id, t')
            == [head] + ReplaceById(RemoveId(s[1..], id), t'.id, t');
      } else {
        assert RemoveId(s, id) == RemoveId(s[1..], id);
      }
    }
  }
}
