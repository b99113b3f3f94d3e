/** The host's persistent key/value store, as far as the counter uses it:
    one integer under a fixed key, read once at start-up and written once on exit. */
module Persist {

  /** Key -> integer storage that survives application restarts. */
  type Store = map<int, int>

  /** The key the target count is saved under. */
  const TargetJacksKey: int := 1

  /** The target used when nothing has been saved yet. */
  const TargetJacksDefault: int := 0

  /** The start-up read: the stored value when the key exists, the default otherwise.
      Any stored integer is accepted, negative ones included. */
  function Load(store: Store): (target: int)
    ensures TargetJacksKey in store ==> target == store[TargetJacksKey]
    ensures TargetJacksKey !in store ==> target == TargetJacksDefault
  {
    if TargetJacksKey in store then store[TargetJacksKey] else TargetJacksDefault
  }

  /** The exit-time write: an unconditional overwrite of the one key. */
  function Save(store: Store, target: int): (r: Store)
    ensures r.Keys == store.Keys + {TargetJacksKey}
    ensures TargetJacksKey in r && r[TargetJacksKey] == target
    ensures forall k :: k in store && k != TargetJacksKey ==> k in r && r[k] == store[k]
  {
    store[TargetJacksKey := target]
  }

  /** Whatever is saved is what the next start-up reads. */
  lemma LoadAfterSave(store: Store, target: int)
    ensures Load(Save(store, target)) == target
  {
  }

  /** A second save replaces the first one completely. */
  lemma SaveOverwrites(store: Store, first: int, second: int)
    ensures Save(Save(store, first), second) == Save(store, second)
  {
  }

  /** Saving the value that was just loaded from a store holding the key changes nothing. */
  lemma SaveLoadedIsIdentity(store: Store)
    requires TargetJacksKey in store
    ensures Save(store, Load(store)) == store
  {
  }

  /** A store nobody has written yet starts the counter at the default, zero. */
  lemma FreshStoreLoadsDefault()
    ensures Load(map[]) == 0
  {
  }
}
