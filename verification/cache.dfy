/**
 * The AI result cache: a key-value store with a read-bypass flag. The disk
 * store behind it is a map; logging is left out.
 */
module Cache {
  import opened Wrappers

  datatype CacheManager<V> = CacheManager(store: map<string, V>, invalidate: bool)

  datatype CacheError = KeyError(key: string)

  /** `get`: nothing while reads are bypassed, else the stored value if there is one. */
  function Get<V>(c: CacheManager<V>, key: string): (r: Option<V>)
    ensures c.invalidate ==> r == None
    ensures !c.invalidate && key in c.store ==> r == Some(c.store[key])
    ensures !c.invalidate && key !in c.store ==> r == None
  {
    if c.invalidate then None
    else if key in c.store then Some(c.store[key])
    else None
  }

  /** `key in cache`, which ignores the bypass flag. */
  predicate Contains<V>(c: CacheManager<V>, key: string)
  {
    key in c.store
  }

  /** `cache[key]`: the stored value, or `KeyError`; it ignores the bypass flag. */
  function GetItem<V>(c: CacheManager<V>, key: string): (r: Result<V, CacheError>)
    ensures r.Success? <==> Contains(c, key)
    ensures r.Success? ==> r.value == c.store[key]
    ensures r.Failure? ==> r.error == KeyError(key)
  {
    if key in c.store then Success(c.store[key]) else Failure(KeyError(key))
  }

  /** `cache[key] = value`: writes go through while reads are bypassed. */
  function SetItem<V>(c: CacheManager<V>, key: string, value: V): (r: CacheManager<V>)
    ensures r.invalidate == c.invalidate
    ensures Contains(r, key) && r.store[key] == value
    ensures forall k :: k != key ==> (k in r.store <==> k in c.store)
    ensures forall k :: k != key && k in c.store ==> r.store[k] == c.store[k]
  {
    c.(store := c.store[key := value])
  }

  /** `del cache[key]`: removes the key, or raises `KeyError` when it is absent. */
  function DelItem<V>(c: CacheManager<V>, key: string): (r: Result<CacheManager<V>, CacheError>)
    ensures r.Success? <==> Contains(c, key)
    ensures r.Success? ==> !Contains(r.value, key) && r.value.invalidate == c.invalidate
    ensures r.Success? ==> forall k :: k != key ==> (k in r.value.store <==> k in c.store)
    ensures r.Success? ==> forall k :: k != key && k in c.store ==> r.value.store[k] == c.store[k]
    ensures r.Failure? ==> r.error == KeyError(key)
  {
    if key in c.store then Success(c.(store := c.store - {key})) else Failure(KeyError(key))
  }

  /** A write is read back by `get`, unless reads are bypassed. */
  lemma GetAfterSet<V>(c: CacheManager<V>, key: string, value: V)
    ensures Get(SetItem(c, key, value), key) == (if c.invalidate then None else Some(value))
    ensures GetItem(SetItem(c, key, value), key) == Success(value)
  {
  }

  /** A write leaves every other key's reading as it was. */
  lemma GetAfterSetOther<V>(c: CacheManager<V>, key: string, value: V, other: string)
    requires other != key
    ensures Get(SetItem(c, key, value), other) == Get(c, other)
  {
  }

  /** After a delete, the key is gone for `in`, `[]` and `get`. */
  lemma GetAfterDel<V>(c: CacheManager<V>, key: string)
    requires Contains(c, key)
    ensures var d := DelItem(c, key).value;
      !Contains(d, key) && Get(d, key) == None && GetItem(d, key) == Failure(KeyError(key))
  {
  }

  /** Writing a value and deleting it again gives back a cache without the key. */
  lemma DelUndoesSet<V>(c: CacheManager<V>, key: string, value: V)
    requires !Contains(c, key)
    ensures DelItem(SetItem(c, key, value), key) == Success(c)
  {
    assert c.store[key := value] - {key} == c.store;
  }
}
