/**
 The Redis commands the services issue, each one atomic, over a store whose
 entries carry the instant at which they lapse. Instants and lifetimes are in
 milliseconds.
 */
module Redis {
  import opened Wrappers

  datatype Timed<+V> = Timed(value: V, deadline: nat)

  type Store<V> = map<string, Timed<V>>

  /** GET: a lapsed entry reads as a missing one. */
  function Get<V>(store: Store<V>, now: nat, key: string): Option<V> {
    if key in store && now < store[key].deadline then Some(store[key].value) else None
  }

  /** SETEX */
  function SetEx<V>(store: Store<V>, now: nat, key: string, lifetime: nat, value: V): Store<V> {
    store[key := Timed(value, now + lifetime)]
  }

  /** SET .. EX .. NX: writes only over a missing or lapsed entry. */
  function SetNx<V>(store: Store<V>, now: nat, key: string, lifetime: nat, value: V): (Store<V>, bool) {
    if Get(store, now, key).None? then (SetEx(store, now, key, lifetime, value), true) else (store, false)
  }

  /** DEL */
  function Del<V>(store: Store<V>, key: string): Store<V> {
    store - {key}
  }
}
