# Identity-mapping cache of the NFS server, in Dafny

This project models the id mapper cache of the NFS server
(`src/IdMapper/idmapper_cache.c`). The cache keeps five tables: user name → uid
(`ht_pwnam`), uid → user name (`ht_pwuid`), group name → gid (`ht_grnam`),
gid → group name (`ht_grgid`) and uid → gid (`ht_uidgid`). Each entry of the
four name/id tables is a `struct idmap_val`: the time it was written, and
either an id or a name.

The model is one class, `IdMapperCache.Cache`, whose five `map` fields are
these tables, plus the pure parts around it:

- `types.dfy` (`IdMapTypes`): C widths (`UInt32`, `Byte`), names as
  NUL-free byte strings (`CString`), the `ID_MAPPER_*` statuses, the two
  shapes of `idmap_val` (`IdEntry`, `NameEntry`) and the time-to-live test.
- `hash_table.dfy` (`HashTableModel`): the two library calls whose outcome
  the cache branches on, `HashTable_Test_And_Set` and `HashTable_Delall`,
  over a `map`; the library's own failures are a nondeterministic outcome.
- `hashing.dfy` (`IdMapHash`): the hash and compare callbacks handed to the
  library.
- `outcomes.dfy` (`IdMapOutcomes`): what one add may do to one table
  (`IdAdded`, `NameAdded`), how the bidirectional adds combine their two
  statuses (`Aggregate`), how the bulk loader vets an item (`ItemPair`) and
  what a load puts in the tables (`LoadPairs`), with lemmas about loads.
- `cache.dfy` (`IdMapperCache`): the class, with the generic add, get,
  remove and clear, the four bidirectional adds and the bulk loader.

Null pointers are explicit: a table handle is `Option<…>` of a table
selector, a `char *` is `Option<CString>`, and a null output pointer is the
flag `outNull`. The clock (`time(NULL)`) is the parameter `now` and the
configured time-to-live (`idmap_cache_timeout`) is the parameter `timeout`.

Behaviour modelled as the code has it, which a reader might not expect:

- The bidirectional adds always attempt the reverse write, even when the
  primary write failed; the result is the primary status when that is not
  success, else the reverse status. Nothing is rolled back.
- `gnamemap_add` has no `propagate` flag and always writes both directions.
- An add without overwrite on a present key succeeds and leaves the entry
  as it was. An add with overwrite whose hash table insertion fails loses
  the entry it had taken out for reuse: the key is then absent.
- Get never removes an expired entry; it only reports `CacheExpire`.
- `uidgidmap_get` answers gid 0 for uid 0 when uid 0 has no entry.
- `idmap_clear` empties the uid → name table and `namemap_clear` the user
  name → uid table; there is no clear for the two group tables.
- The bulk loader rejects a value only when `strtoul` set `errno` or the
  value exceeds `UINT_MAX`; text that is not a number is not detected
  (the end pointer is not checked) and becomes whatever `strtoul` returned.
- The name hashes add every byte of the name except the first: the loop
  reads byte 0 before it starts and accumulates from byte 1 on.
- Argument checks are for null pointers only; an empty name is accepted.

## Model

| member | source | states |
|---|---|---|
| `HashTableModel.TestAndSet` | src/IdMapper/idmapper_cache.c:319-335 | a no-overwrite insertion reports a present key and leaves it; otherwise the pair is stored or, on a library failure, the table is unchanged |
| `HashTableModel.DeleteAll` | src/IdMapper/idmapper_cache.c:497-505 | a successful delete-all leaves the table empty; a failed one leaves a sub-map of it |
| `IdMapHash.NameValueHash` | src/IdMapper/idmapper_cache.c:104-116 | the bucket index is below `index_size` and is the sum of the name's bytes after the first, wrapped to 32 bits, modulo `index_size` |
| `IdMapHash.NameRbtHash` | src/IdMapper/idmapper_cache.c:139-151 | the tree value is the same byte sum wrapped to 64 bits |
| `IdMapHash.TailSumSkipsFirst` | src/IdMapper/idmapper_cache.c:112-113 | the sum the loop computes is the sum of all bytes minus the first |
| `IdMapHash.TailSumOfTerminated` | src/IdMapper/idmapper_cache.c:112-113 | the loop stops exactly at the terminator of a NUL-free name, having added the bytes after the first |
| `IdMapHash.IdValueHash` | src/IdMapper/idmapper_cache.c:119-123 | the bucket index of an id is below `index_size`, and is the id itself when the id is smaller |
| `IdMapHash.CompareName` | src/IdMapper/idmapper_cache.c:172-175 | `strcmp` over unsigned bytes up to the terminator; its sign is -1, 0 or 1 |
| `IdMapHash.CompareNameZeroIff` | src/IdMapper/idmapper_cache.c:172-175 | two names compare 0 exactly when they are equal |
| `IdMapHash.CompareNameAntisymmetric` | src/IdMapper/idmapper_cache.c:172-175 | swapping the names negates the comparison |
| `IdMapHash.CompareId` | src/IdMapper/idmapper_cache.c:177-183 | 0 exactly for equal ids, 1 otherwise |
| `IdMapHash.HashesAgreeWithCompare` | src/IdMapper/idmapper_cache.c:153-157 | names that compare equal have the same byte sum; two ids have the same tree value exactly when `compare_id` says they are equal |
| `IdMapOutcomes.Aggregate` | src/IdMapper/idmapper_cache.c:545-550 | the combined status is success exactly when both writes succeeded, and is the primary error whenever the primary write failed |
| `IdMapOutcomes.ItemPair` | src/IdMapper/idmapper_cache.c:916-926 | a configuration item is accepted exactly when it could be read, `strtoul` set no error and the value is at most `UINT_MAX` |
| `IdMapOutcomes.LoadKeys` | src/IdMapper/idmapper_cache.c:928-932 | a load adds exactly the pairs' names to the forward table and their ids to the reverse table |
| `IdMapOutcomes.LoadKeepsExisting` | src/IdMapper/idmapper_cache.c:928-932 | a load never changes an entry present before it |
| `IdMapOutcomes.LoadFirstNameWins` | src/IdMapper/idmapper_cache.c:928-929 | the first pair bringing a new name maps that name to its id, stamped `now` |
| `IdMapOutcomes.LoadFirstIdWins` | src/IdMapper/idmapper_cache.c:931-932 | the first pair bringing a new id maps that id to its name, stamped `now` |
| `IdMapOutcomes.LoadOfPresentIsNoOp` | src/IdMapper/idmapper_cache.c:928-932 | loading pairs whose names and ids are all present changes nothing |
| `IdMapOutcomes.LoadIdempotent` | src/IdMapper/idmapper_cache.c:908-934 | loading the same pairs a second time, at any later time, leaves the tables as the first load left them |
| `IdMapperCache.Cache.IdmapGet` | src/IdMapper/idmapper_cache.c:616-650 | `InvalidArgument` exactly for a null table, key or output; `NotFound` exactly for an absent key; `Success` with the stored id exactly while `now < timestamp + timeout`, `CacheExpire` from then on; reading changes nothing |
| `IdMapperCache.Cache.NamemapGet` | src/IdMapper/idmapper_cache.c:652-686 | the same four-way answer for an id-keyed table, returning the stored name |
| `IdMapperCache.Cache.UidgidmapGet` | src/IdMapper/idmapper_cache.c:688-718 | `Success` with the stored gid (no time-to-live) for a present uid, `Success` with gid 0 for an absent uid 0, `NotFound` otherwise, `InvalidArgument` for a null output |
| `IdMapperCache.Cache.IdmapAdd` | src/IdMapper/idmapper_cache.c:263-342 | only the named table changes, as `IdAdded` allows (present key kept without overwrite; new entry `(now, val)` or, on failure, key absent); after a write a get answers the new id for the whole time-to-live |
| `IdMapperCache.Cache.NamemapAdd` | src/IdMapper/idmapper_cache.c:344-433 | the id-keyed counterpart, as `NameAdded` allows; the reused entry's name is replaced only when `compare_name` finds it different, and ends up equal to the new name either way |
| `IdMapperCache.Cache.UidgidmapAdd` | src/IdMapper/idmapper_cache.c:435-455 | always replaces the gid of the uid and answers it on get, unless the table fails, in which case nothing changes |
| `IdMapperCache.Cache.IdmapRemove` | src/IdMapper/idmapper_cache.c:752-774 | `Success` exactly when the name was present, `NotFound` otherwise; the name is absent afterwards and nothing else changes |
| `IdMapperCache.Cache.NamemapRemove` | src/IdMapper/idmapper_cache.c:776-797 | the same for an id-keyed table |
| `IdMapperCache.Cache.UidgidmapRemove` | src/IdMapper/idmapper_cache.c:799-817 | the same for the uid → gid table |
| `IdMapperCache.Cache.IdmapClear` | src/IdMapper/idmapper_cache.c:477-505 | on success the uid → name table is empty and every id answers `NotFound`; other tables are unchanged |
| `IdMapperCache.Cache.NamemapClear` | src/IdMapper/idmapper_cache.c:507-533 | on success the user name → uid table is empty and every name answers `NotFound` |
| `IdMapperCache.Cache.UidgidmapClear` | src/IdMapper/idmapper_cache.c:457-475 | on success the uid → gid table is empty and every uid but 0 answers `NotFound` |
| `IdMapperCache.Cache.UidmapAdd` | src/IdMapper/idmapper_cache.c:536-551 | primary add to user name → uid, then, if `propagate`, reverse add even after a primary failure; status is `Aggregate` of the two; after a successful propagating overwrite both tables hold the pair and both gets answer it |
| `IdMapperCache.Cache.UnamemapAdd` | src/IdMapper/idmapper_cache.c:553-568 | the same with uid → user name as the primary table |
| `IdMapperCache.Cache.GidmapAdd` | src/IdMapper/idmapper_cache.c:570-585 | the same for group name → gid and gid → group name |
| `IdMapperCache.Cache.GnamemapAdd` | src/IdMapper/idmapper_cache.c:587-601 | gid → group name, then group name → gid unconditionally; status is `Aggregate` of the two |
| `IdMapperCache.Cache.IdmapPopulate` | src/IdMapper/idmapper_cache.c:847-940 | `InvalidArgument` for an unreadable file, another map type or a missing block, changing nothing; otherwise the tables are `LoadPairs` of the accepted prefix, the load stops at the first rejected item or failed add, and earlier pairs remain |

## Left out

- The hash table library (`HashTable_Init`, `Get`, `Get_and_Del`, `Test_And_Set`, `Del`, `Delall`, `GetStats`) is not part of this model: each table is a `map`, and a library failure is a nondeterministic outcome.
- `idmap_get_stats` and `idmapper_init`: they only delegate to the library; the `Cache` constructor gives five empty tables and the fatal-log path of a failed initialisation is not modelled.
- The wrappers `uidmap_get`, `unamemap_get`, `gidmap_get`, `gnamemap_get`, `uidmap_remove`, `unamemap_remove`, `gidmap_remove` and `gnamemap_remove` pass a fixed table to the generic operation; in the model the caller passes that table's selector.
- Locking and concurrency, including the race in which `Test_And_Set` reports an existing key after `Get_and_Del`; the model is sequential.
- Allocation failures of `gsh_malloc` and `gsh_strdup`: these abort the process rather than return NULL, so the branches that test for NULL are unreachable.
- Memory ownership and release (which callback frees a key or a name, the leak in `namemap_remove`), and the identity of a reused `idmap_val` or name buffer: entries are values, so reusing the old name when `compare_name` says it is equal is visible only as the name being unchanged.
- The clock: each add in the source reads `time(NULL)` itself; the model takes one reading `now` per call, so both writes of a bidirectional add, and all adds of a bulk load, carry the same time.
- `time_t` overflow in `now - timeout`: `Time` is unbounded.
- Logging and the `display_*` callbacks.
- Configuration parsing and the text parsing of `strtoul`: the block is given as a sequence of items carrying the parsed number and whether `errno` was set.
- IdMapperCache.Cache.NamemapGet: returns the stored name whole; the copy into the caller's buffer with `strmaxcpy`, which truncates to `size`, is not modelled.
- IdMapHash.CompareName: returns only the sign of `strcmp` (-1, 0, 1), because its magnitude is unspecified and the table uses only the sign.
- HashTableModel.DeleteAll: on failure states only that what remains is a sub-map of the old table, because how far a failed delete-all got is not visible.
- `IdMapHash.IdRbtHash` (`id_rbt_hash_func`) returns the id itself; its property is stated in `HashesAgreeWithCompare`.
