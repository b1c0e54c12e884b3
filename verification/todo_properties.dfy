/**
 * Properties relating several handler invocations: round trips through the
 * store, idempotence, the layout invariant of the namespace, and what
 * list-all returns.
 */
module TodoProperties {
  import opened Wrappers
  import opened State
  import opened Decimal
  import opened Worker
  import opened Kv
  import opened TodoHandlers

  // ---------------------------------------------------------------- round trips

  /** A created Todo is what get-by-id returns for the key create used. */
  lemma CreateThenGet(store: Store, faults: Faults, todo: Todo, later: Faults)
    requires PutKey(ToDecimal(todo.id)) !in faults
    requires GetKey(ToDecimal(todo.id)) !in later
    ensures TodoById(CreateTodo(store, faults, Parsed(todo)).store, later, Some(ToDecimal(todo.id)))
            == Respond(FromJson(TodoJson(todo)))
  {
  }

  /** A second create with the same id replaces the first rather than failing. */
  lemma CreateOverwrites(store: Store, faults: Faults, first: Todo, second: Todo)
    requires first.id == second.id
    ensures CreateTodo(CreateTodo(store, faults, Parsed(first)).store, faults, Parsed(second))
            == CreateTodo(store, faults, Parsed(second))
  {
  }

  /** After a successful update, get-by-id returns the path's id with the body's fields. */
  lemma UpdateThenGet(store: Store, faults: Faults, key: string, body: TodoUpdate, later: Faults)
    requires Succeeded(UpdateTodo(store, faults, Some(key), Parsed(body)).outcome)
    requires GetKey(key) !in later
    ensures ParseU8(key).Some?
    ensures TodoById(UpdateTodo(store, faults, Some(key), Parsed(body)).store, later, Some(key))
            == Respond(FromJson(TodoJson(Todo(ParseU8(key).value, body.name, body.description))))
  {
  }

  /** Updating a missing key answers 404 and a later get still finds nothing. */
  lemma UpdateMissingThenGet(store: Store, faults: Faults, key: string, body: TodoUpdate, later: Faults)
    requires key !in store && GetKey(key) !in faults && GetKey(key) !in later
    ensures UpdateTodo(store, faults, Some(key), Parsed(body)).outcome == NotFound
    ensures TodoById(UpdateTodo(store, faults, Some(key), Parsed(body)).store, later, Some(key)) == NotFound
  {
  }

  /** After a successful delete, get-by-id answers 404. */
  lemma DeleteThenGet(store: Store, faults: Faults, key: string, later: Faults)
    requires DeleteKey(key) !in faults && GetKey(key) !in later
    ensures TodoById(DeleteTodo(store, faults, Some(key)).store, later, Some(key)) == NotFound
  {
  }

  /** Deleting twice gives the same answer and store as deleting once. */
  lemma DeleteIdempotent(store: Store, faults: Faults, id: Option<string>)
    ensures DeleteTodo(DeleteTodo(store, faults, id).store, faults, id) == DeleteTodo(store, faults, id)
  {
  }

  /** Delete's answer does not depend on what the store holds. */
  lemma DeleteIgnoresPresence(store: Store, other: Store, faults: Faults, id: Option<string>)
    ensures DeleteTodo(store, faults, id).outcome == DeleteTodo(other, faults, id).outcome
  {
  }

  /** PUT `/todo/5` with name "a" and description "b" over an existing 5. */
  lemma UpdateReplacesFields()
    ensures var before := map["5" := Valid(Todo(5, "old", "older"))];
            UpdateTodo(before, map[], Some("5"), Parsed(TodoUpdate("a", "b"))).store
            == map["5" := Valid(Todo(5, "a", "b"))]
  {
    assert ParseU8("5") == Some(5);
  }

  // ---------------------------------------------------------------- namespace layout

  lemma CreatePreservesWellKeyed(store: Store, faults: Faults, body: Json<Todo>)
    requires WellKeyed(store)
    ensures WellKeyed(CreateTodo(store, faults, body).store)
  {
  }

  lemma DeletePreservesWellKeyed(store: Store, faults: Faults, id: Option<string>)
    requires WellKeyed(store)
    ensures WellKeyed(DeleteTodo(store, faults, id).store)
  {
  }

  /**
   * On a namespace laid out by create, every key update can find parses back
   * to the id stored under it: the `unwrap` never panics, the stored id is
   * kept, and the layout survives.
   */
  lemma UpdateOnWellKeyed(store: Store, faults: Faults, id: Option<string>, body: Json<TodoUpdate>)
    requires WellKeyed(store)
    ensures !UpdateTodo(store, faults, id, body).outcome.Panic?
    ensures WellKeyed(UpdateTodo(store, faults, id, body).store)
    ensures Succeeded(UpdateTodo(store, faults, id, body).outcome) ==>
              UpdateTodo(store, faults, id, body).store[id.value].todo.id == store[id.value].todo.id
  {
    if id.Some? && Readable(store, faults, id.value) {
      ParseDecimal(store[id.value].todo.id);
    }
  }

  // ---------------------------------------------------------------- list-all

  /** A Todo is listed exactly when some listed key is readable and holds it. */
  lemma {:induction false} CollectMembers(store: Store, faults: Faults, listing: seq<string>, t: Todo)
    ensures t in Collect(store, faults, listing) <==>
            exists i :: 0 <= i < |listing| && Readable(store, faults, listing[i]) && store[listing[i]].todo == t
    decreases |listing|
  {
    if |listing| > 0 {
      CollectMembers(store, faults, listing[1..], t);
      if exists i :: 1 <= i < |listing| && Readable(store, faults, listing[i]) && store[listing[i]].todo == t {
        var i :| 1 <= i < |listing| && Readable(store, faults, listing[i]) && store[listing[i]].todo == t;
        assert listing[1..][i - 1] == listing[i];
      }
      if exists i :: 0 <= i < |listing| - 1 && Readable(store, faults, listing[1..][i]) && store[listing[1..][i]].todo == t {
        var i :| 0 <= i < |listing| - 1 && Readable(store, faults, listing[1..][i]) && store[listing[1..][i]].todo == t;
        assert listing[i + 1] == listing[1..][i];
      }
    }
  }

  /** The result follows the listing order: concatenated listings give concatenated results. */
  lemma {:induction false} CollectAppend(store: Store, faults: Faults, a: seq<string>, b: seq<string>)
    ensures Collect(store, faults, a + b) == Collect(store, faults, a) + Collect(store, faults, b)
    decreases |a|
  {
    if |a| > 0 {
      assert (a + b)[0] == a[0] && (a + b)[1..] == a[1..] + b;
      CollectAppend(store, faults, a[1..], b);
      match Fetch(store, faults, a[0])
      case Ok(Some(t)) =>
        assert [t] + (Collect(store, faults, a[1..]) + Collect(store, faults, b))
            == ([t] + Collect(store, faults, a[1..])) + Collect(store, faults, b);
      case _ =>
    } else {
      assert a + b == b;
    }
  }

  /** One listed key contributes its Todo when readable and nothing otherwise. */
  lemma CollectSingle(store: Store, faults: Faults, key: string)
    ensures Collect(store, faults, [key]) ==
            if Readable(store, faults, key) then [store[key].todo] else []
  {
  }

  /** A key that is unbound, undecodable or unfetchable is dropped without affecting the rest. */
  lemma CollectSkipsUnreadable(store: Store, faults: Faults, a: seq<string>, key: string, b: seq<string>)
    requires !Readable(store, faults, key)
    ensures Collect(store, faults, a + [key] + b) == Collect(store, faults, a + b)
  {
    CollectAppend(store, faults, a + [key], b);
    CollectAppend(store, faults, a, [key]);
    CollectAppend(store, faults, a, b);
  }

  /** A listing that names no key twice. */
  predicate Distinct(listing: seq<string>) {
    forall i, j :: 0 <= i < j < |listing| ==> listing[i] != listing[j]
  }

  /** A listing of distinct keys names as many keys as it has entries. */
  lemma {:induction false} DistinctKeysCount(listing: seq<string>)
    requires Distinct(listing)
    ensures |set k | k in listing| == |listing|
    decreases |listing|
  {
    if |listing| > 0 {
      var rest := listing[1..];
      assert Distinct(rest) by {
        forall i, j | 0 <= i < j < |rest| ensures rest[i] != rest[j] {
          assert rest[i] == listing[i + 1] && rest[j] == listing[j + 1];
        }
      }
      DistinctKeysCount(rest);
      assert (set k | k in listing) == {listing[0]} + (set k | k in rest) by {
        assert listing == [listing[0]] + rest;
      }
      assert forall j :: 0 <= j < |rest| ==> rest[j] == listing[j + 1];
      assert listing[0] !in (set k | k in rest);
    } else {
      assert (set k | k in listing) == {};
    }
  }

  /** When every listed key is readable, each contributes one Todo. */
  lemma {:induction false} CollectAllReadable(store: Store, faults: Faults, listing: seq<string>)
    requires forall i :: 0 <= i < |listing| ==> Readable(store, faults, listing[i])
    ensures |Collect(store, faults, listing)| == |listing|
    decreases |listing|
  {
    if |listing| > 0 {
      assert forall i :: 0 <= i < |listing| - 1 ==> listing[1..][i] == listing[i + 1];
      CollectAllReadable(store, faults, listing[1..]);
    }
  }

  /**
   * With a listing that names every bound key once, every listed key bound,
   * no fetch failing and no value corrupt, list-all returns exactly the
   * stored Todos, one per key.
   */
  lemma ListAllComplete(store: Store, faults: Faults, listing: seq<string>, t: Todo)
    requires forall k :: k in store ==> k in listing
    requires Distinct(listing)
    requires forall i :: 0 <= i < |listing| ==> listing[i] in store && store[listing[i]].Valid?
    requires forall i :: 0 <= i < |listing| ==> GetKey(listing[i]) !in faults
    ensures t in Collect(store, faults, listing) <==> Valid(t) in store.Values
    ensures |Collect(store, faults, listing)| == |store|
  {
    CollectMembers(store, faults, listing, t);
    if Valid(t) in store.Values {
      var k :| k in store && store[k] == Valid(t);
      var i :| 0 <= i < |listing| && listing[i] == k;
      assert Readable(store, faults, listing[i]);
    }
    CollectAllReadable(store, faults, listing);
    DistinctKeysCount(listing);
    assert (set k | k in listing) == store.Keys;
  }

  // ---------------------------------------------------------------- list-all as written

  /** The Todos of a nullable array, nulls dropped. */
  function Somes(entries: seq<Option<Todo>>): (todos: seq<Todo>)
    ensures |todos| <= |entries|
  {
    if |entries| == 0 then []
    else if entries[0].Some? then [entries[0].value] + Somes(entries[1..])
    else Somes(entries[1..])
  }

  /** Dropping the nulls of the as-written array gives the corrected result. */
  lemma {:induction false} AsWrittenWithoutNulls(store: Store, faults: Faults, listing: seq<string>)
    ensures Somes(CollectAsWritten(store, faults, listing)) == Collect(store, faults, listing)
    decreases |listing|
  {
    if |listing| > 0 {
      AsWrittenWithoutNulls(store, faults, listing[1..]);
      var rest := CollectAsWritten(store, faults, listing[1..]);
      match Fetch(store, faults, listing[0])
      case Ok(entry) =>
        assert CollectAsWritten(store, faults, listing) == [entry] + rest;
        assert ([entry] + rest)[1..] == rest;
      case Err(_) =>
    }
  }

  /** When every listed key is still bound, the as-written array has no null. */
  lemma {:induction false} FreshListingHasNoNulls(store: Store, faults: Faults, listing: seq<string>)
    requires forall i :: 0 <= i < |listing| ==> listing[i] in store
    ensures forall j :: 0 <= j < |CollectAsWritten(store, faults, listing)| ==>
              CollectAsWritten(store, faults, listing)[j].Some?
    decreases |listing|
  {
    if |listing| > 0 {
      assert forall i :: 0 <= i < |listing| - 1 ==> listing[1..][i] == listing[i + 1];
      FreshListingHasNoNulls(store, faults, listing[1..]);
    }
  }

  /** The as-written array holds a null exactly when some listed key is unbound and its fetch does not fail. */
  lemma {:induction false} NullsExactlyUnbound(store: Store, faults: Faults, listing: seq<string>)
    ensures None in CollectAsWritten(store, faults, listing) <==>
            exists i :: 0 <= i < |listing| && GetKey(listing[i]) !in faults && listing[i] !in store
    decreases |listing|
  {
    if |listing| > 0 {
      NullsExactlyUnbound(store, faults, listing[1..]);
      if exists i :: 1 <= i < |listing| && GetKey(listing[i]) !in faults && listing[i] !in store {
        var i :| 1 <= i < |listing| && GetKey(listing[i]) !in faults && listing[i] !in store;
        assert listing[1..][i - 1] == listing[i];
      }
      if exists i :: 0 <= i < |listing| - 1 && GetKey(listing[1..][i]) !in faults && listing[1..][i] !in store {
        var i :| 0 <= i < |listing| - 1 && GetKey(listing[1..][i]) !in faults && listing[1..][i] !in store;
        assert listing[i + 1] == listing[1..][i];
      }
    }
  }

  /**
   * A key listed and then deleted before its fetch: the code answers `[null]`,
   * the corrected handler `[]`.
   */
  lemma StaleListingYieldsNull()
    ensures GetAllTodosAsWritten(map[], map[], ["1"]) == Respond(FromJson(NullableTodoArrayJson([None])))
    ensures GetAllTodos(map[], map[], ["1"]) == Respond(FromJson(TodoArrayJson([])))
  {
  }
}
