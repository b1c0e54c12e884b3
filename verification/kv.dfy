/**
 * The `Todo_KV` namespace as a finite map from key to stored value, and the
 * three single-key primitives the handlers call on it.
 */
module Kv {
  import opened Wrappers
  import opened State
  import opened Worker
  import opened Decimal

  /** A stored value: JSON that decodes as a Todo, or anything else. */
  datatype Value = Valid(todo: Todo) | Corrupt

  type Store = map<string, Value>

  /** The backend calls a handler can issue. */
  datatype KvCall = ListKeys | GetKey(key: string) | PutKey(key: string) | DeleteKey(key: string)

  /**
   * Which backend calls fail during one invocation, and with what message.
   * The backend is outside the model: this map stands for its answers.
   */
  type Faults = map<KvCall, string>

  /** A key whose fetch succeeds and decodes as a Todo. */
  predicate Readable(store: Store, faults: Faults, key: string) {
    GetKey(key) !in faults && key in store && store[key].Valid?
  }

  /** `kv.get(key).json::<Todo>().await`. */
  function Fetch(store: Store, faults: Faults, key: string): (r: Result<Option<Todo>, Error>)
    ensures r.Err? <==> GetKey(key) in faults || (key in store && store[key].Corrupt?)
    ensures r == Ok(None) <==> GetKey(key) !in faults && key !in store
    ensures r.Ok? && r.value.Some? <==> Readable(store, faults, key)
    ensures Readable(store, faults, key) ==> r.value.value == store[key].todo
  {
    if GetKey(key) in faults then Err(KvFailure(faults[GetKey(key)]))
    else if key !in store then Ok(None)
    else match store[key]
      case Valid(t) => Ok(Some(t))
      case Corrupt => Err(UndecodableValue(key))
  }

  /** `after` is `before` with `key` bound to `v` and every other binding kept. */
  predicate WritesOnly(before: Store, after: Store, key: string, v: Value) {
    && after.Keys == before.Keys + {key}
    && key in after && after[key] == v
    && forall k :: k in before && k != key ==> k in after && after[k] == before[k]
  }

  /** `after` is `before` without `key`, every other binding kept. */
  predicate RemovesOnly(before: Store, after: Store, key: string) {
    && after.Keys == before.Keys - {key}
    && forall k :: k in after ==> k in before && after[k] == before[k]
  }

  /** `kv.put(key, value)?.execute().await`: no existence check, a plain overwrite. */
  function Put(store: Store, faults: Faults, key: string, v: Value): (r: Result<Store, Error>)
    ensures r.Err? <==> PutKey(key) in faults
    ensures r.Err? ==> r.error == KvFailure(faults[PutKey(key)])
    ensures r.Ok? ==> WritesOnly(store, r.value, key, v)
  {
    if PutKey(key) in faults then Err(KvFailure(faults[PutKey(key)])) else Ok(store[key := v])
  }

  /** `kv.delete(key).await`: succeeds whether or not `key` is bound. */
  function Remove(store: Store, faults: Faults, key: string): (r: Result<Store, Error>)
    ensures r.Err? <==> DeleteKey(key) in faults
    ensures r.Err? ==> r.error == KvFailure(faults[DeleteKey(key)])
    ensures r.Ok? ==> RemovesOnly(store, r.value, key)
  {
    if DeleteKey(key) in faults then Err(KvFailure(faults[DeleteKey(key)])) else Ok(store - {key})
  }

  /**
   * Every decodable value sits under the decimal numeral of its own id, as
   * `create_todo` lays the namespace out.
   */
  predicate WellKeyed(store: Store) {
    forall k :: k in store && store[k].Valid? ==> k == ToDecimal(store[k].todo.id)
  }
}
