/**
 * The part of the generic hash table library that the cache relies on.
 * The library itself is not part of this model: a table is a `map`, and the
 * library's own failures (it allocates on insertion) are a nondeterministic
 * outcome that the callers must handle.
 */
module HashTableModel {

  /** The HASHTABLE_* codes the cache tells apart; every other code is `HtError`. */
  datatype HashStatus = HtSuccess | HtKeyAlreadyExists | HtError

  /**
   * HashTable_Test_And_Set. With `overwrite` false
   * (HASHTABLE_SET_HOW_SET_NO_OVERWRITE) a present key is reported and left
   * alone; otherwise the pair is stored, unless the library fails, in which
   * case the table is unchanged.
   */
  method TestAndSet<K, V>(m: map<K, V>, k: K, v: V, overwrite: bool) returns (rc: HashStatus, m': map<K, V>)
    ensures rc == HtKeyAlreadyExists <==> !overwrite && k in m
    ensures rc == HtSuccess ==> m' == m[k := v]
    ensures rc != HtSuccess ==> m' == m
  {
    if !overwrite && k in m {
      rc, m' := HtKeyAlreadyExists, m;
    } else {
      var stored: bool :| true;
      if stored {
        rc, m' := HtSuccess, m[k := v];
      } else {
        rc, m' := HtError, m;
      }
    }
  }

  /**
   * HashTable_Delall: on success the table is empty; on failure some of the
   * entries may already have been released, and the rest are untouched.
   */
  method DeleteAll<K, V>(m: map<K, V>) returns (rc: HashStatus, m': map<K, V>)
    ensures rc == HtSuccess || rc == HtError
    ensures rc == HtSuccess ==> m' == map[]
    ensures rc == HtError ==> m'.Keys <= m.Keys && forall k | k in m' :: m'[k] == m[k]
  {
    var emptied: bool :| true;
    if emptied {
      rc, m' := HtSuccess, map[];
    } else {
      rc, m' := HtError, m;
    }
  }
}
