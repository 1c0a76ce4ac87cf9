/** The API-key hook (src/hooks/useApiKey.ts): the key held in component state and mirrored in
    browser storage under one fixed name. Storage is a map from names to strings. */
module ApiKey {
  import opened Common

  const StorageKey := "codi_api_key"

  type Storage = map<string, string>

  /** The hook's state next to the storage it writes. */
  datatype Cache = Cache(apiKey: string, storage: Storage)

  /** Only the hook's own entry ever differs. */
  ghost predicate OthersUnchanged(a: Storage, b: Storage) {
    forall n :: n != StorageKey ==> (n in a <==> n in b) && (n in a ==> a[n] == b[n])
  }

  /** Mounting: the state starts empty and takes the stored key when a non-empty one is
      stored. */
  function Mount(storage: Storage): (c: Cache)
    ensures c.storage == storage
    ensures StorageKey in storage && storage[StorageKey] != "" ==> c.apiKey == storage[StorageKey]
    ensures !(StorageKey in storage && storage[StorageKey] != "") ==> c.apiKey == ""
  {
    if StorageKey in storage && storage[StorageKey] != "" then Cache(storage[StorageKey], storage)
    else Cache("", storage)
  }

  /** `saveApiKey`: a non-empty key goes to state and storage; the empty key empties the
      state and removes the entry. */
  function Save(c: Cache, key: string): (r: Cache)
    ensures r.apiKey == key
    ensures key != "" ==> StorageKey in r.storage && r.storage[StorageKey] == key
    ensures key == "" ==> StorageKey !in r.storage
    ensures OthersUnchanged(c.storage, r.storage)
  {
    if key != "" then Cache(key, c.storage[StorageKey := key])
    else Cache(key, c.storage - {StorageKey})
  }

  /** `clearApiKey`. */
  function Clear(c: Cache): (r: Cache)
    ensures r.apiKey == "" && StorageKey !in r.storage
    ensures OthersUnchanged(c.storage, r.storage)
  {
    Cache("", c.storage - {StorageKey})
  }

  /** A saved key comes back on the next mount; after clearing, or saving the empty key,
      nothing comes back. */
  lemma SaveThenMount(c: Cache, key: string)
    ensures Mount(Save(c, key).storage).apiKey == key
    ensures Mount(Clear(c).storage).apiKey == ""
  {
  }

  /** Saving the empty key is clearing. */
  lemma SaveEmptyIsClear(c: Cache)
    ensures Save(c, "") == Clear(c)
  {
  }

  /** State and storage agree after any save or clear: the state is what the next mount
      would read. */
  lemma StateMatchesStorage(c: Cache, key: string)
    ensures Mount(Save(c, key).storage).apiKey == Save(c, key).apiKey
    ensures Mount(Clear(c).storage).apiKey == Clear(c).apiKey
  {
  }
}
