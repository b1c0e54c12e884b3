# Todo API on an edge key-value store — Dafny model

This project models the Todo service of a small HTTP worker: five CRUD
handlers (create, get-by-id, list-all, update, delete) plus a fixed index
route, all backed by one key-value namespace. Each handler reads or writes
that namespace and answers with a response, a propagated error, or (in one
case) a panic.

The namespace is a finite map `Store = map<string, Value>`, where a value
is either `Valid(todo)` (JSON that decodes as a `Todo`) or `Corrupt`
(anything serde rejects). Each writing handler is a pure function from the
store and its inputs to a `Step(outcome, store')`. Each read-only handler
returns an `Outcome` alone, so it cannot change the store.

- The backend is outside the model. A `Faults` map says which backend calls
  (`ListKeys`, `GetKey(k)`, `PutKey(k)`, `DeleteKey(k)`) reject during one
  invocation, and with which message. The empty map is a healthy backend.
- The key listing that list-all works from is a parameter. Under eventual
  consistency it need not match the store the later fetches read.
- Request bodies come in already decoded: `Parsed(value)` or `Malformed`.
- `Outcome` is `Respond(Response(status, body))` for `Ok(response)`,
  `Fail(error)` for an error propagated with `?`, and `Panic` for the
  `unwrap` in update.
- `u8::to_string` and `str::parse::<u8>` are modelled exactly (module
  `Decimal`). The parser takes one optional leading `+`, accepts leading
  zeros, rejects `-`, and rejects values of 256 or more.

Modules: `Wrappers` (Option, Result), `State` (the `Todo` record and `u8`),
`Decimal` (key numerals), `Worker` (errors, request bodies, responses,
outcomes), `Kv` (the namespace and its get/put/delete), `TodoHandlers` (the
handlers), `TodoProperties` (lemmas that relate several calls).

## Model

| member | source | states |
|---|---|---|
| Decimal.ToDecimal | src/todo_handlers.rs:63 | the key create writes is a canonical numeral (digits only, no leading zero), one digit exactly below 10, at most three digits for a u8 |
| Decimal.ParseU8 | src/todo_handlers.rs:98 | after dropping one optional leading '+', a parse succeeds exactly when what remains is one or more decimal digits whose value is below 256, and it yields that value |
| Decimal.DigitsOfDecimal | src/todo_handlers.rs:63 | reading back the printed numeral of any n gives n |
| Decimal.DecimalOfDigits | src/todo_handlers.rs:63 | printing the value of a canonical numeral gives that numeral back |
| Decimal.ParseDecimal | src/todo_handlers.rs:97-98 | for every id 0..255, parsing the key create wrote for it yields that id |
| Decimal.ParseDecimalOverflow | src/state.rs:10 | the numeral of any number from 256 up does not parse as u8, so `unwrap` would panic |
| Decimal.DecimalIffCanonical | src/todo_handlers.rs:63 | a string is the key create writes for id n if and only if it is canonical and parses to n |
| Decimal.ParseU8Examples | src/todo_handlers.rs:98 | "+7" and "007" parse to 7 and "255" to 255; "256", "-0", "+", "" and "abc" do not parse |
| Kv.Fetch | src/todo_handlers.rs:75 | a get-and-decode errors exactly when the call fails or the value is corrupt, yields None exactly when the key is unbound, and otherwise yields the stored Todo |
| Kv.Put | src/todo_handlers.rs:63 | a put fails exactly when the backend rejects it, with that message; otherwise it binds the key, whether or not it was bound, and keeps every other binding |
| Kv.Remove | src/todo_handlers.rs:120 | a delete fails exactly when the backend rejects it; otherwise the key is unbound afterwards, present before or not, and every other binding is kept |
| TodoHandlers.Index | src/todo_handlers.rs:16-18 | the index route always answers 200 with the text "Todo Api", whatever the store holds |
| TodoHandlers.CreateTodo | src/todo_handlers.rs:54-66 | a malformed body fails and a rejected put fails, both with the store unchanged; otherwise the body is stored under the numeral of its id, overwriting any old value, every other key is kept, and the body is echoed with 200 |
| TodoHandlers.TodoById | src/todo_handlers.rs:68-81 | a missing parameter or an unbound key gives 404 "Todo not found"; a corrupt value or a failed fetch gives an error, not 404; a valid value gives 200 with that Todo |
| TodoHandlers.Updated | src/todo_handlers.rs:97-101 | the new Todo exists exactly when the path parses as u8; it takes the parsed id and the body's name and description |
| TodoHandlers.UpdateTodo | src/todo_handlers.rs:83-111 | a missing parameter gives 404; a malformed body fails even when the key is absent; a failed existence fetch propagates its error; an absent key gives 404 with no write; a corrupt value fails; it panics exactly when the key is readable and the path does not parse; a rejected put propagates its error; it succeeds exactly when the key is readable, the path parses and the put is accepted, and then it echoes the new Todo and binds the path key to it, keeping every other key; every path that does not succeed leaves the store unchanged |
| TodoHandlers.DeleteTodo | src/todo_handlers.rs:113-127 | delete never propagates an error; a missing parameter gives 404 "Todo not found"; a rejected delete gives 404 with the backend's message and leaves the store unchanged; otherwise it gives 204 with an empty body and unbinds only that key |
| TodoHandlers.Collect | src/todo_handlers.rs:35-45 | corrected per Findings: no more results than listed keys, and every result is a value held in the store |
| TodoHandlers.CollectAsWritten | src/todo_handlers.rs:35-45 | as written: no more entries than listed keys, and every non-null entry is a value held in the store |
| TodoHandlers.GetAllTodos | src/todo_handlers.rs:20-52 | corrected per Findings: list-all fails exactly when the listing call fails, with its message; otherwise it answers 200 with the corrected per-key result `Collect`, so no single bad value fails the call |
| TodoHandlers.GetAllTodosAsWritten | src/todo_handlers.rs:20-52 | as written: list-all fails exactly when the listing call fails; otherwise it answers 200 with the nullable array `CollectAsWritten` |
| TodoProperties.CreateThenGet | src/todo_handlers.rs:58-78 | after a successful create, get on the numeral of its id returns exactly the created Todo |
| TodoProperties.CreateOverwrites | src/todo_handlers.rs:63 | creating twice with the same id gives the same answer and store as creating only the second |
| TodoProperties.UpdateThenGet | src/todo_handlers.rs:96-108 | after a successful update, get on the path key returns the parsed id with the body's name and description |
| TodoProperties.UpdateMissingThenGet | src/todo_handlers.rs:91-94 | update of an unbound key answers 404, and a later get of that key still answers 404 |
| TodoProperties.DeleteThenGet | src/todo_handlers.rs:120-122 | after a successful delete, get on that key answers 404 |
| TodoProperties.DeleteIdempotent | src/todo_handlers.rs:120-124 | deleting twice gives the same answer and store as deleting once |
| TodoProperties.DeleteIgnoresPresence | src/todo_handlers.rs:120-124 | delete's answer is the same whatever the store holds |
| TodoProperties.UpdateReplacesFields | src/todo_handlers.rs:97-106 | updating an existing "5" with name "a" and description "b" stores exactly {5, "a", "b"}, discarding the old fields |
| TodoProperties.CreatePreservesWellKeyed | src/todo_handlers.rs:63 | create keeps every valid value under the numeral of its own id |
| TodoProperties.DeletePreservesWellKeyed | src/todo_handlers.rs:120 | delete keeps every valid value under the numeral of its own id |
| TodoProperties.UpdateOnWellKeyed | src/todo_handlers.rs:91-106 | on a store laid out by create, update never panics, keeps the stored id of the Todo it replaces, and keeps the layout |
| TodoProperties.CollectMembers | src/todo_handlers.rs:35-45 | corrected: a Todo is in the result if and only if some listed key is fetchable and holds it |
| TodoProperties.CollectAppend | src/todo_handlers.rs:35-45 | corrected: results follow listing order (the result for a concatenated listing is the concatenation of the results) |
| TodoProperties.CollectSingle | src/todo_handlers.rs:41 | corrected: one listed key contributes its Todo when fetchable and valid, and nothing otherwise |
| TodoProperties.CollectSkipsUnreadable | src/todo_handlers.rs:41 | corrected: an unbound, corrupt or unfetchable key is dropped and the rest of the result is unaffected |
| TodoProperties.ListAllComplete | src/todo_handlers.rs:25-45 | with a listing naming each bound key exactly once, no failed fetch and no corrupt value, the result holds exactly the stored Todos, one entry per key |
| TodoProperties.DistinctKeysCount | src/todo_handlers.rs:28-31 | a listing of distinct key names names as many keys as it has entries |
| TodoProperties.CollectAllReadable | src/todo_handlers.rs:35-45 | corrected: when every listed key is readable, the result has one entry per listed key |
| TodoProperties.Somes | src/todo_handlers.rs:41-45 | dropping the nulls of an array leaves no more elements than it had |
| TodoProperties.AsWrittenWithoutNulls | src/todo_handlers.rs:38-45 | the as-written array with its nulls dropped is exactly the corrected result |
| TodoProperties.NullsExactlyUnbound | src/todo_handlers.rs:38-45 | as written: the array holds a null if and only if some listed key is unbound and its fetch does not fail |
| TodoProperties.FreshListingHasNoNulls | src/todo_handlers.rs:38-45 | if every listed key is still bound when fetched, the as-written array has no null |
| TodoProperties.StaleListingYieldsNull | src/todo_handlers.rs:38-45 | a key listed and then unbound before its fetch makes the code answer `[null]`, where the corrected handler answers `[]` |

## Findings

| source | as written | input that shows it | evidently intended | confidence | as-written member | corrected member |
|---|---|---|---|---|---|---|
| src/todo_handlers.rs:38-45 | each fetch gives `Result<Option<Todo>>`; `filter_map(\|todo\| todo.ok())` drops only the errors and keeps `Ok(None)`, so the response is a `Vec<Option<Todo>>` with `null` for each listed key that was unbound at fetch time | listing `["1"]` over an empty store (key 1 deleted between list and get): the answer is `[null]` | keys missing at fetch time are dropped like undecodable ones, so the array holds only Todos | medium (follows from the types in the source; not executed) | TodoHandlers.GetAllTodosAsWritten, TodoProperties.NullsExactlyUnbound, TodoProperties.StaleListingYieldsNull | TodoHandlers.GetAllTodos, TodoProperties.CollectSkipsUnreadable |

The code itself reads as meaning to drop such keys. `todoby_id`
(src/todo_handlers.rs:75-77) treats the same `None` from the same fetch as
"Todo not found" rather than as a Todo, and the collected vector is named
`todos`. The as-written member follows the code; the corrected member drops
the key.

On update, the model follows the code: the path id is parsed with
`unwrap` (src/todo_handlers.rs:98), so a path that does not parse as a `u8`
ends in an explicit `Panic` outcome. That panic only happens after the
existence check passes (see `UpdateOnWellKeyed` for when it cannot happen).

## Left out

- Router wiring in src/lib.rs, and the `/shared-data` route with its `SharedData`: route matching and dispatch belong to the `worker` library, and `SharedData` carries only a constant string.
- `ctx.kv("Todo_KV")` binding failure: it is a host-runtime detail, so every handler assumes the namespace is bound.
- `join_all` fan-out and `async`/`await` suspension: list-all is modelled as a sequential map-then-filter over the listing. Concurrent writes show up only as a listing that is stale against the store.
- KV list pagination and cursors: the listing is one finite sequence.
- serde encoding and decoding: a stored value is `Valid` or `Corrupt`, a request body is `Parsed` or `Malformed`. `to_string` of a Todo is taken never to fail.
- How the runtime turns a propagated `Err` or a panic into an HTTP answer: it is outside the handlers, so the model stops at `Fail(error)` and `Panic`.
- The exact text of backend error messages: `Faults` supplies them.
- `console_debug!` logging: it is output only.
