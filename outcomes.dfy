/**
 * What one add does to one table, how the bidirectional adds combine their
 * two statuses, and what a bulk load from the configuration puts in the
 * forward and reverse tables.
 */
module IdMapOutcomes {
  import opened IdMapTypes

  /** A name-keyed table (ht_pwnam, ht_grnam). */
  type IdTable = map<CString, IdEntry>

  /** An id-keyed table (ht_pwuid, ht_grgid). */
  type NameTable = map<UInt32, NameEntry>

  /** Insertion that leaves a present key alone (HASHTABLE_SET_HOW_SET_NO_OVERWRITE). */
  function InsertAbsent<K, V>(m: map<K, V>, k: K, v: V): map<K, V>
  {
    if k in m then m else m[k := v]
  }

  /**
   * The possible outcomes of idmap_add on a non-null table `m`, leaving
   * `m'`. A null key is rejected. Without overwrite a present key wins
   * and the call succeeds. Otherwise the key ends up holding a fresh entry
   * (time `now`, id `val`), or the hash table fails and the key is absent:
   * an entry taken out for reuse is then lost with it.
   */
  ghost predicate IdAdded(m: IdTable, m': IdTable, key: Option<CString>, val: UInt32, overwrite: bool, now: Time, st: Status)
  {
    match key
    case None => st == InvalidArgument && m' == m
    case Some(k) =>
      if k in m && !overwrite then st == Success && m' == m
      else
        || (st == Success && m' == m[k := IdEntry(now, val)])
        || (st == InsertMallocError && m' == m - {k})
  }

  /** The possible outcomes of namemap_add, the id-keyed counterpart of IdAdded; here the name is the pointer that may be null. */
  ghost predicate NameAdded(m: NameTable, m': NameTable, key: UInt32, val: Option<CString>, overwrite: bool, now: Time, st: Status)
  {
    match val
    case None => st == InvalidArgument && m' == m
    case Some(v) =>
      if key in m && !overwrite then st == Success && m' == m
      else
        || (st == Success && m' == m[key := NameEntry(now, v)])
        || (st == InsertMallocError && m' == m - {key})
  }

  /** The status of a bidirectional add: the primary write's error if it failed, else the reverse write's status. */
  function Aggregate(primary: Status, reverse: Status): (r: Status)
    ensures r == Success <==> primary == Success && reverse == Success
    ensures r == primary || r == reverse
    ensures primary != Success ==> r == primary
  {
    if primary != Success then primary
    else if reverse != Success then reverse
    else Success
  }

  /** One entry of the configuration block: `name = value`, as the configuration parser and strtoul deliver it. */
  datatype ConfigItem =
    | KeyValue(name: CString, value: nat, errno: bool)  // value as strtoul returns it; errno set by strtoul
    | Unreadable                                        // config_GetKeyValue failed

  /** A (name, id) pair that passed the checks of the bulk loader. */
  datatype Pair = Pair(name: CString, id: UInt32)

  /** The bulk loader accepts an item only when it could be read, strtoul set no error, and the value fits in 32 bits. */
  function ItemPair(item: ConfigItem): (r: Option<Pair>)
    ensures r.Some? <==> item.KeyValue? && !item.errno && item.value <= UINT_MAX
    ensures r.Some? ==> r.value.name == item.name && r.value.id == item.value
  {
    match item
    case Unreadable => None
    case KeyValue(name, value, errno) =>
      if errno || value > UINT_MAX then None else Some(Pair(name, value))
  }

  /**
   * The forward and reverse tables after the pairs have been added in
   * order, each with overwrite off and each add succeeding.
   */
  function LoadPairs(f: IdTable, r: NameTable, pairs: seq<Pair>, now: Time): (IdTable, NameTable)
  {
    if pairs == [] then (f, r)
    else
      var prev := LoadPairs(f, r, pairs[..|pairs| - 1], now);
      var p := pairs[|pairs| - 1];
      (InsertAbsent(prev.0, p.name, IdEntry(now, p.id)), InsertAbsent(prev.1, p.id, NameEntry(now, p.name)))
  }

  /** A load adds exactly the pairs' names to the forward table and their ids to the reverse table. */
  lemma {:induction false} LoadKeys(f: IdTable, r: NameTable, pairs: seq<Pair>, now: Time)
    ensures LoadPairs(f, r, pairs, now).0.Keys == f.Keys + set p | p in pairs :: p.name
    ensures LoadPairs(f, r, pairs, now).1.Keys == r.Keys + set p | p in pairs :: p.id
  {
    if pairs != [] {
      var init := pairs[..|pairs| - 1];
      LoadKeys(f, r, init, now);
      assert pairs == init + [pairs[|pairs| - 1]];
      assert (set p | p in pairs :: p.name) == (set p | p in init :: p.name) + {pairs[|pairs| - 1].name};
      assert (set p | p in pairs :: p.id) == (set p | p in init :: p.id) + {pairs[|pairs| - 1].id};
    }
  }

  /** A load never changes an entry that was present before it: existing data wins. */
  lemma {:induction false} LoadKeepsExisting(f: IdTable, r: NameTable, pairs: seq<Pair>, now: Time)
    ensures forall k | k in f :: k in LoadPairs(f, r, pairs, now).0 && LoadPairs(f, r, pairs, now).0[k] == f[k]
    ensures forall k | k in r :: k in LoadPairs(f, r, pairs, now).1 && LoadPairs(f, r, pairs, now).1[k] == r[k]
  {
    if pairs != [] {
      LoadKeepsExisting(f, r, pairs[..|pairs| - 1], now);
    }
  }

  /** The first pair that brings a name the forward table lacked maps that name to its id. */
  lemma {:induction false} LoadFirstNameWins(f: IdTable, r: NameTable, pairs: seq<Pair>, now: Time, j: nat)
    requires j < |pairs| && pairs[j].name !in f
    requires forall i | 0 <= i < j :: pairs[i].name != pairs[j].name
    ensures pairs[j].name in LoadPairs(f, r, pairs, now).0
    ensures LoadPairs(f, r, pairs, now).0[pairs[j].name] == IdEntry(now, pairs[j].id)
  {
    var init := pairs[..|pairs| - 1];
    var p := pairs[j];
    LoadKeys(f, r, init, now);
    if j < |pairs| - 1 {
      assert init[j] == p;
      LoadFirstNameWins(f, r, init, now, j);
    }
  }

  /** The first pair that brings an id the reverse table lacked maps that id to its name. */
  lemma {:induction false} LoadFirstIdWins(f: IdTable, r: NameTable, pairs: seq<Pair>, now: Time, j: nat)
    requires j < |pairs| && pairs[j].id !in r
    requires forall i | 0 <= i < j :: pairs[i].id != pairs[j].id
    ensures pairs[j].id in LoadPairs(f, r, pairs, now).1
    ensures LoadPairs(f, r, pairs, now).1[pairs[j].id] == NameEntry(now, pairs[j].name)
  {
    var init := pairs[..|pairs| - 1];
    var p := pairs[j];
    LoadKeys(f, r, init, now);
    if j < |pairs| - 1 {
      assert init[j] == p;
      LoadFirstIdWins(f, r, init, now, j);
    }
  }

  /** A load whose names and ids are all present already changes nothing. */
  lemma {:induction false} LoadOfPresentIsNoOp(f: IdTable, r: NameTable, pairs: seq<Pair>, now: Time)
    requires forall p | p in pairs :: p.name in f && p.id in r
    ensures LoadPairs(f, r, pairs, now) == (f, r)
  {
    if pairs != [] {
      var init := pairs[..|pairs| - 1];
      assert forall p | p in init :: p in pairs;
      LoadOfPresentIsNoOp(f, r, init, now);
    }
  }

  /** Loading the same configuration twice leaves the tables as the first load left them. */
  lemma LoadIdempotent(f: IdTable, r: NameTable, pairs: seq<Pair>, now: Time, later: Time)
    ensures LoadPairs(LoadPairs(f, r, pairs, now).0, LoadPairs(f, r, pairs, now).1, pairs, later) == LoadPairs(f, r, pairs, now)
  {
    var once := LoadPairs(f, r, pairs, now);
    LoadKeys(f, r, pairs, now);
    LoadOfPresentIsNoOp(once.0, once.1, pairs, later);
  }
}
