/** The command-line argument map of the configuration: a map from argument
    keys to values with at most one entry per key, with the map operations
    the configuration uses. */
module ArgumentMaps {
  import opened CStrings

  type ArgumentMap = map<string, string>

  /** `std::map::erase(key)`: drops the entry for `key`, if there is one. */
  function Erase(m: ArgumentMap, key: string): (r: ArgumentMap)
    ensures r.Keys == m.Keys - {key}
    ensures forall k :: k in r ==> r[k] == m[k]
  {
    m - {key}
  }

  /** `std::map::insert(entry)`: adds the entry only when its key is absent;
      an entry already stored for the key is kept as it was. */
  function Insert(m: ArgumentMap, key: string, value: string): (r: ArgumentMap)
    ensures r.Keys == m.Keys + {key}
    ensures key in m ==> r[key] == m[key]
    ensures key !in m ==> r[key] == value
    ensures forall k :: k in m && k != key ==> r[k] == m[k]
  {
    if key in m then m else m[key := value]
  }

  /** Erase followed by insert: the update the configuration applies when it
      sets one command-line argument. Afterwards `key` holds the new value,
      every other entry is unchanged and no other key appears. */
  function Replace(m: ArgumentMap, key: string, value: string): (r: ArgumentMap)
    ensures r.Keys == m.Keys + {key}
    ensures r[key] == value
    ensures forall k :: k in m && k != key ==> r[k] == m[k]
  {
    Insert(Erase(m, key), key, value)
  }

  /** The string the configuration hands back for `key`: the C string of the
      stored value, or the empty string when `key` is absent. */
  function Lookup(m: ArgumentMap, key: string): (r: string)
    ensures '\0' !in r
    ensures key !in m ==> r == ""
    ensures key in m ==> r == CString(m[key])
  {
    if key in m then CString(m[key]) else ""
  }

  /** A replace stores exactly one entry for its key: the map grows by one
      entry when the key was new and keeps its size otherwise. */
  lemma ReplaceSize(m: ArgumentMap, key: string, value: string)
    ensures |Replace(m, key, value)| == if key in m then |m| else |m| + 1
  {
  }

  /** Insert alone would not update an existing argument: this is why the
      replace erases first. */
  lemma InsertKeepsExisting(m: ArgumentMap, key: string, value: string)
    requires key in m
    ensures Insert(m, key, value) == m
  {
  }

  /** Looking a key up after a replace gives the C string of the new value
      for that key and the old answer for every other key. */
  lemma LookupAfterReplace(m: ArgumentMap, key: string, value: string, k: string)
    ensures Lookup(Replace(m, key, value), k) == if k == key then CString(value) else Lookup(m, k)
  {
  }

  /** An argument whose value reads as the empty C string looks exactly like
      a missing argument. */
  lemma LookupEmptyLikeMissing(m: ArgumentMap, key: string, value: string)
    requires value == "" || value[0] == '\0'
    ensures Lookup(m[key := value], key) == Lookup(m - {key}, key) == ""
  {
  }
}
