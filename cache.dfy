/**
 * The identity-mapping cache: five tables kept in place, the generic add,
 * get, remove and clear over them, the bidirectional adds and the bulk
 * loader. The clock reading `now` and the configured time-to-live
 * `timeout` are parameters.
 */
module IdMapperCache {
  import opened IdMapTypes
  import opened HashTableModel
  import opened IdMapHash
  import opened IdMapOutcomes

  /** The name-keyed tables that idmap_add, idmap_get and idmap_remove are given. */
  datatype IdTableName = PwNam | GrNam

  /** The id-keyed tables that namemap_add, namemap_get and namemap_remove are given. */
  datatype NameTableName = PwUid | GrGid

  /** idmap_type_t: which forward/reverse pair a bulk load fills. */
  datatype MapType = UidMapType | GidMapType | OtherMapType {
    function Forward(): IdTableName
      requires !OtherMapType?
    {
      if UidMapType? then PwNam else GrNam
    }

    function Reverse(): NameTableName
      requires !OtherMapType?
    {
      if UidMapType? then PwUid else GrGid
    }
  }

  /** What config_FindItemByName finds under a label. */
  datatype BlockLookup = LabelMissing | NotABlock | Block(items: seq<ConfigItem>)

  /** The configuration file: unreadable, or the blocks under the uid and gid mapper labels. */
  datatype ConfigFile = Unparsable | Parsed(uidMapperTable: BlockLookup, gidMapperTable: BlockLookup) {
    function BlockFor(mt: MapType): BlockLookup
      requires Parsed? && !mt.OtherMapType?
    {
      if mt.UidMapType? then uidMapperTable else gidMapperTable
    }
  }

  /** The contents of all five tables at once. */
  datatype Tables = Tables(pwnam: IdTable, pwuid: NameTable, grnam: IdTable, grgid: NameTable, uidgid: map<UInt32, UInt32>) {
    function WithId(t: IdTableName, m: IdTable): Tables
    {
      match t
      case PwNam => this.(pwnam := m)
      case GrNam => this.(grnam := m)
    }

    function WithName(t: NameTableName, m: NameTable): Tables
    {
      match t
      case PwUid => this.(pwuid := m)
      case GrGid => this.(grgid := m)
    }
  }

  /** A sub-map: what a failed HashTable_Delall may leave behind. */
  ghost predicate SubMap<K, V>(small: map<K, V>, big: map<K, V>)
  {
    small.Keys <= big.Keys && forall k | k in small :: small[k] == big[k]
  }

  /** At most the first `|pairs|` items of the block were accepted, as these pairs. */
  ghost predicate Accepted(items: seq<ConfigItem>, pairs: seq<Pair>)
  {
    |pairs| <= |items| && forall j | 0 <= j < |pairs| :: ItemPair(items[j]) == Some(pairs[j])
  }

  class Cache {
    var pwnam: IdTable                // user name -> uid
    var pwuid: NameTable              // uid -> user name
    var grnam: IdTable                // group name -> gid
    var grgid: NameTable              // gid -> group name
    var uidgid: map<UInt32, UInt32>   // uid -> gid

    /** The five tables as created by a successful idmapper_init. */
    constructor ()
      ensures State() == Tables(map[], map[], map[], map[], map[])
    {
      pwnam, pwuid, grnam, grgid, uidgid := map[], map[], map[], map[], map[];
    }

    function State(): Tables
      reads this
    {
      Tables(pwnam, pwuid, grnam, grgid, uidgid)
    }

    function IdTableOf(t: IdTableName): IdTable
      reads this
    {
      match t
      case PwNam => pwnam
      case GrNam => grnam
    }

    function NameTableOf(t: NameTableName): NameTable
      reads this
    {
      match t
      case PwUid => pwuid
      case GrGid => grgid
    }

    method SetIdTable(t: IdTableName, m: IdTable)
      modifies this
      ensures State() == old(State()).WithId(t, m)
    {
      match t
      case PwNam => pwnam := m;
      case GrNam => grnam := m;
    }

    method SetNameTable(t: NameTableName, m: NameTable)
      modifies this
      ensures State() == old(State()).WithName(t, m)
    {
      match t
      case PwUid => pwuid := m;
      case GrGid => grgid := m;
    }

    /**
     * idmap_get: look a name up in a name-keyed table. An entry answers
     * with its id while `now` is before its time-to-live runs out, and is
     * reported expired, but left in place, from then on.
     */
    function IdmapGet(ht: Option<IdTableName>, key: Option<CString>, outNull: bool, now: Time, timeout: int): (r: Reply<UInt32>)
      reads this
      ensures r.status == InvalidArgument <==> ht.None? || key.None? || outNull
      ensures r.status == NotFound <==> ht.Some? && key.Some? && !outNull && key.value !in IdTableOf(ht.value)
      ensures r.status == Success <==>
        ht.Some? && key.Some? && !outNull && key.value in IdTableOf(ht.value)
        && now < IdTableOf(ht.value)[key.value].timestamp + timeout
      ensures r.status == CacheExpire <==>
        ht.Some? && key.Some? && !outNull && key.value in IdTableOf(ht.value)
        && now >= IdTableOf(ht.value)[key.value].timestamp + timeout
      ensures r.out == if r.status == Success then Some(IdTableOf(ht.value)[key.value].realId) else None
    {
      if ht.None? || key.None? || outNull then Reply(InvalidArgument, None)
      else
        var m := IdTableOf(ht.value);
        if key.value in m then
          var entry := m[key.value];
          if Fresh(entry.timestamp, now, timeout) then Reply(Success, Some(entry.realId))
          else Reply(CacheExpire, None)
        else Reply(NotFound, None)
    }

    /**
     * namemap_get: look an id up in an id-keyed table, with the same
     * time-to-live rule as IdmapGet. The id itself cannot be null.
     */
    function NamemapGet(ht: Option<NameTableName>, key: UInt32, outNull: bool, now: Time, timeout: int): (r: Reply<CString>)
      reads this
      ensures r.status == InvalidArgument <==> ht.None? || outNull
      ensures r.status == NotFound <==> ht.Some? && !outNull && key !in NameTableOf(ht.value)
      ensures r.status == Success <==>
        ht.Some? && !outNull && key in NameTableOf(ht.value)
        && now < NameTableOf(ht.value)[key].timestamp + timeout
      ensures r.status == CacheExpire <==>
        ht.Some? && !outNull && key in NameTableOf(ht.value)
        && now >= NameTableOf(ht.value)[key].timestamp + timeout
      ensures r.out == if r.status == Success then Some(NameTableOf(ht.value)[key].name) else None
    {
      if ht.None? || outNull then Reply(InvalidArgument, None)
      else
        var m := NameTableOf(ht.value);
        if key in m then
          var entry := m[key];
          if Fresh(entry.timestamp, now, timeout) then Reply(Success, Some(entry.name))
          else Reply(CacheExpire, None)
        else Reply(NotFound, None)
    }

    /**
     * uidgidmap_get: the gid stored for a uid, with no time-to-live. A uid
     * without an entry has no gid, except uid 0, which answers gid 0.
     */
    function UidgidmapGet(key: UInt32, outNull: bool): (r: Reply<UInt32>)
      reads this
      ensures r.status == InvalidArgument <==> outNull
      ensures r.status == Success <==> !outNull && (key in uidgid || key == 0)
      ensures r.status == NotFound <==> !outNull && key !in uidgid && key != 0
      ensures r.status == Success ==> r.out == Some(if key in uidgid then uidgid[key] else 0)
      ensures r.status != Success ==> r.out == None
    {
      if outNull then Reply(InvalidArgument, None)
      else if key in uidgid then Reply(Success, Some(uidgid[key]))
      else if key == 0 then Reply(Success, Some(0))
      else Reply(NotFound, None)
    }

    /**
     * idmap_add: record name -> id in a name-keyed table. Only that table
     * changes, as IdAdded allows; once the entry is written, a get answers
     * the new id for as long as its time-to-live lasts.
     */
    method IdmapAdd(ht: Option<IdTableName>, key: Option<CString>, val: UInt32, overwrite: bool, now: Time) returns (st: Status)
      modifies this
      ensures ht.None? ==> st == InvalidArgument && State() == old(State())
      ensures ht.Some? ==> State() == old(State()).WithId(ht.value, IdTableOf(ht.value))
      ensures ht.Some? ==> IdAdded(old(IdTableOf(ht.value)), IdTableOf(ht.value), key, val, overwrite, now, st)
      ensures ht.Some? && key.Some? && st == Success && (overwrite || key.value !in old(IdTableOf(ht.value))) ==>
        forall t: Time, ttl: int | t < now + ttl :: IdmapGet(ht, key, false, t, ttl) == Reply(Success, Some(val))
    {
      if ht.None? || key.None? {
        return InvalidArgument;
      }
      var t, k := ht.value, key.value;
      var m := IdTableOf(t);
      var entry: IdEntry;
      if overwrite && k in m {
        // HashTable_Get_and_Del: take the entry out and reuse it; the id is set without comparing
        entry := m[k];
        m := m - {k};
        entry := entry.(realId := val, timestamp := now);
      } else {
        entry := IdEntry(now, val);
      }
      var rc, m' := TestAndSet(m, k, entry, false);
      SetIdTable(t, m');
      if rc == HtKeyAlreadyExists {
        st := Success;  // the entry already there wins
      } else if rc != HtSuccess {
        st := InsertMallocError;
      } else {
        st := Success;
      }
    }

    /**
     * namemap_add: record id -> name in an id-keyed table. On overwrite the
     * reused entry's name is replaced only when compare_name finds it
     * different, which leaves the same name either way.
     */
    method NamemapAdd(ht: Option<NameTableName>, key: UInt32, val: Option<CString>, overwrite: bool, now: Time) returns (st: Status)
      modifies this
      ensures ht.None? ==> st == InvalidArgument && State() == old(State())
      ensures ht.Some? ==> State() == old(State()).WithName(ht.value, NameTableOf(ht.value))
      ensures ht.Some? ==> NameAdded(old(NameTableOf(ht.value)), NameTableOf(ht.value), key, val, overwrite, now, st)
      ensures ht.Some? && val.Some? && st == Success && (overwrite || key !in old(NameTableOf(ht.value))) ==>
        forall t: Time, ttl: int | t < now + ttl :: NamemapGet(ht, key, false, t, ttl) == Reply(Success, Some(val.value))
    {
      if ht.None? || val.None? {
        return InvalidArgument;
      }
      var t, v := ht.value, val.value;
      var m := NameTableOf(t);
      var entry: NameEntry;
      if overwrite && key in m {
        // HashTable_Get_and_Del: take the entry out and reuse it
        entry := m[key];
        m := m - {key};
        if CompareName(entry.name, v) != 0 {
          entry := entry.(name := v);
        } else {
          CompareNameZeroIff(entry.name, v);
        }
        entry := entry.(timestamp := now);
      } else {
        entry := NameEntry(now, v);
      }
      var rc, m' := TestAndSet(m, key, entry, false);
      SetNameTable(t, m');
      if rc == HtKeyAlreadyExists {
        st := Success;
      } else if rc != HtSuccess {
        st := InsertMallocError;
      } else {
        st := Success;
      }
    }

    /** uidgidmap_add: always replace the gid of a uid, unless the hash table fails. */
    method UidgidmapAdd(key: UInt32, value: UInt32) returns (st: Status)
      modifies this
      ensures st == Success || st == InsertMallocError
      ensures st == Success ==> State() == old(State()).(uidgid := old(uidgid)[key := value])
      ensures st == InsertMallocError ==> State() == old(State())
      ensures st == Success ==> UidgidmapGet(key, false) == Reply(Success, Some(value))
    {
      var rc, m' := TestAndSet(uidgid, key, value, true);
      uidgid := m';
      if rc != HtSuccess && rc != HtKeyAlreadyExists {
        st := InsertMallocError;
      } else {
        st := Success;
      }
    }

    /** idmap_remove: drop a name from a name-keyed table; NotFound when it was not there. */
    method IdmapRemove(ht: Option<IdTableName>, key: Option<CString>) returns (st: Status)
      modifies this
      ensures ht.None? || key.None? ==> st == InvalidArgument && State() == old(State())
      ensures ht.Some? && key.Some? ==>
        && (st == Success <==> key.value in old(IdTableOf(ht.value)))
        && (st == NotFound <==> key.value !in old(IdTableOf(ht.value)))
        && State() == old(State()).WithId(ht.value, old(IdTableOf(ht.value)) - {key.value})
      ensures ht.Some? && key.Some? ==>
        forall t: Time, ttl: int :: IdmapGet(ht, key, false, t, ttl).status == NotFound
    {
      if ht.None? || key.None? {
        return InvalidArgument;
      }
      var m := IdTableOf(ht.value);
      if key.value in m {
        SetIdTable(ht.value, m - {key.value});
        st := Success;
      } else {
        st := NotFound;
      }
    }

    /** namemap_remove: drop an id from an id-keyed table; NotFound when it was not there. */
    method NamemapRemove(ht: Option<NameTableName>, key: UInt32) returns (st: Status)
      modifies this
      ensures ht.None? ==> st == InvalidArgument && State() == old(State())
      ensures ht.Some? ==>
        && (st == Success <==> key in old(NameTableOf(ht.value)))
        && (st == NotFound <==> key !in old(NameTableOf(ht.value)))
        && State() == old(State()).WithName(ht.value, old(NameTableOf(ht.value)) - {key})
      ensures ht.Some? ==>
        forall t: Time, ttl: int :: NamemapGet(ht, key, false, t, ttl).status == NotFound
    {
      if ht.None? {
        return InvalidArgument;
      }
      var m := NameTableOf(ht.value);
      if key in m {
        SetNameTable(ht.value, m - {key});
        st := Success;
      } else {
        st := NotFound;
      }
    }

    /** uidgidmap_remove: drop a uid from the uid -> gid table; NotFound when it was not there. */
    method UidgidmapRemove(key: UInt32) returns (st: Status)
      modifies this
      ensures st == Success <==> key in old(uidgid)
      ensures st == NotFound <==> key !in old(uidgid)
      ensures State() == old(State()).(uidgid := old(uidgid) - {key})
      ensures key != 0 ==> UidgidmapGet(key, false).status == NotFound
    {
      if key in uidgid {
        uidgid := uidgid - {key};
        st := Success;
      } else {
        st := NotFound;
      }
    }

    /** idmap_clear: empty the uid -> name table (ht_pwuid). */
    method IdmapClear() returns (st: Status)
      modifies this
      ensures st == Success || st == Fail
      ensures State() == old(State()).(pwuid := pwuid)
      ensures st == Success ==> pwuid == map[]
      ensures st == Fail ==> SubMap(pwuid, old(pwuid))
      ensures st == Success ==>
        forall key: UInt32, t: Time, ttl: int :: NamemapGet(Some(PwUid), key, false, t, ttl).status == NotFound
    {
      var rc, m' := DeleteAll(pwuid);
      pwuid := m';
      st := if rc != HtSuccess then Fail else Success;
    }

    /** namemap_clear: empty the user name -> uid table (ht_pwnam). */
    method NamemapClear() returns (st: Status)
      modifies this
      ensures st == Success || st == Fail
      ensures State() == old(State()).(pwnam := pwnam)
      ensures st == Success ==> pwnam == map[]
      ensures st == Fail ==> SubMap(pwnam, old(pwnam))
      ensures st == Success ==>
        forall key: CString, t: Time, ttl: int :: IdmapGet(Some(PwNam), Some(key), false, t, ttl).status == NotFound
    {
      var rc, m' := DeleteAll(pwnam);
      pwnam := m';
      st := if rc != HtSuccess then Fail else Success;
    }

    /** uidgidmap_clear: empty the uid -> gid table. */
    method UidgidmapClear() returns (st: Status)
      modifies this
      ensures st == Success || st == Fail
      ensures State() == old(State()).(uidgid := uidgid)
      ensures st == Success ==> uidgid == map[]
      ensures st == Fail ==> SubMap(uidgid, old(uidgid))
      ensures st == Success ==>
        forall key: UInt32 | key != 0 :: UidgidmapGet(key, false).status == NotFound
    {
      var rc, m' := DeleteAll(uidgid);
      uidgid := m';
      st := if rc != HtSuccess then Fail else Success;
    }

    /**
     * uidmap_add: record user name -> uid, and with `propagate` also
     * uid -> user name. The reverse write is attempted even when the
     * primary one failed, and neither is undone.
     */
    method UidmapAdd(key: Option<CString>, val: UInt32, propagate: bool, overwrite: bool, now: Time)
      returns (st: Status, ghost primary: Status, ghost reverse: Status)
      modifies this
      ensures State() == old(State()).(pwnam := pwnam, pwuid := pwuid)
      ensures IdAdded(old(pwnam), pwnam, key, val, overwrite, now, primary)
      ensures propagate ==> NameAdded(old(pwuid), pwuid, val, key, overwrite, now, reverse)
      ensures !propagate ==> reverse == Success && pwuid == old(pwuid)
      ensures st == Aggregate(primary, reverse)
      ensures st == Success && propagate && overwrite ==>
        key.Some? && pwnam[key.value] == IdEntry(now, val) && pwuid[val] == NameEntry(now, key.value)
      ensures st == Success && propagate && overwrite ==>
        forall t: Time, ttl: int | t < now + ttl ::
          IdmapGet(Some(PwNam), key, false, t, ttl) == Reply(Success, Some(val))
          && NamemapGet(Some(PwUid), val, false, t, ttl) == Reply(Success, key)
    {
      var rc1 := IdmapAdd(Some(PwNam), key, val, overwrite, now);
      var rc2 := Success;
      if propagate {
        rc2 := NamemapAdd(Some(PwUid), val, key, overwrite, now);
      }
      st := Aggregate(rc1, rc2);
      primary, reverse := rc1, rc2;
    }

    /** unamemap_add: record uid -> user name, and with `propagate` also user name -> uid. */
    method UnamemapAdd(key: UInt32, val: Option<CString>, propagate: bool, overwrite: bool, now: Time)
      returns (st: Status, ghost primary: Status, ghost reverse: Status)
      modifies this
      ensures State() == old(State()).(pwnam := pwnam, pwuid := pwuid)
      ensures NameAdded(old(pwuid), pwuid, key, val, overwrite, now, primary)
      ensures propagate ==> IdAdded(old(pwnam), pwnam, val, key, overwrite, now, reverse)
      ensures !propagate ==> reverse == Success && pwnam == old(pwnam)
      ensures st == Aggregate(primary, reverse)
      ensures st == Success && propagate && overwrite ==>
        val.Some? && pwuid[key] == NameEntry(now, val.value) && pwnam[val.value] == IdEntry(now, key)
    {
      var rc1 := NamemapAdd(Some(PwUid), key, val, overwrite, now);
      var rc2 := Success;
      if propagate {
        rc2 := IdmapAdd(Some(PwNam), val, key, overwrite, now);
      }
      st := Aggregate(rc1, rc2);
      primary, reverse := rc1, rc2;
    }

    /** gidmap_add: record group name -> gid, and with `propagate` also gid -> group name. */
    method GidmapAdd(key: Option<CString>, val: UInt32, propagate: bool, overwrite: bool, now: Time)
      returns (st: Status, ghost primary: Status, ghost reverse: Status)
      modifies this
      ensures State() == old(State()).(grnam := grnam, grgid := grgid)
      ensures IdAdded(old(grnam), grnam, key, val, overwrite, now, primary)
      ensures propagate ==> NameAdded(old(grgid), grgid, val, key, overwrite, now, reverse)
      ensures !propagate ==> reverse == Success && grgid == old(grgid)
      ensures st == Aggregate(primary, reverse)
      ensures st == Success && propagate && overwrite ==>
        key.Some? && grnam[key.value] == IdEntry(now, val) && grgid[val] == NameEntry(now, key.value)
    {
      var rc1 := IdmapAdd(Some(GrNam), key, val, overwrite, now);
      var rc2 := Success;
      if propagate {
        rc2 := NamemapAdd(Some(GrGid), val, key, overwrite, now);
      }
      st := Aggregate(rc1, rc2);
      primary, reverse := rc1, rc2;
    }

    /** gnamemap_add: record gid -> group name and group name -> gid; there is no `propagate` flag. */
    method GnamemapAdd(key: UInt32, val: Option<CString>, overwrite: bool, now: Time)
      returns (st: Status, ghost primary: Status, ghost reverse: Status)
      modifies this
      ensures State() == old(State()).(grnam := grnam, grgid := grgid)
      ensures NameAdded(old(grgid), grgid, key, val, overwrite, now, primary)
      ensures IdAdded(old(grnam), grnam, val, key, overwrite, now, reverse)
      ensures st == Aggregate(primary, reverse)
      ensures st == Success && overwrite ==>
        val.Some? && grgid[key] == NameEntry(now, val.value) && grnam[val.value] == IdEntry(now, key)
    {
      var rc1 := NamemapAdd(Some(GrGid), key, val, overwrite, now);
      var rc2 := IdmapAdd(Some(GrNam), val, key, overwrite, now);
      st := Aggregate(rc1, rc2);
      primary, reverse := rc1, rc2;
    }

    /**
     * idmap_populate: add every `name = id` item of the configuration block
     * to the forward and the reverse table, without overwriting. The first
     * rejected item or failed add ends the load; what was added before stays.
     * `pairs` are the items added in both directions.
     */
    method IdmapPopulate(config: ConfigFile, maptype: MapType, now: Time) returns (st: Status, ghost pairs: seq<Pair>)
      modifies this
      ensures config.Unparsable? || maptype.OtherMapType? ==> st == InvalidArgument && State() == old(State()) && pairs == []
      ensures config.Parsed? && !maptype.OtherMapType? && !config.BlockFor(maptype).Block? ==>
        st == InvalidArgument && State() == old(State()) && pairs == []
      ensures config.Parsed? && !maptype.OtherMapType? && config.BlockFor(maptype).Block? ==>
        var fwd, rev, items := maptype.Forward(), maptype.Reverse(), config.BlockFor(maptype).items;
        var loaded := LoadPairs(old(IdTableOf(fwd)), old(NameTableOf(rev)), pairs, now);
        && Accepted(items, pairs)
        && State() == old(State()).WithId(fwd, IdTableOf(fwd)).WithName(rev, NameTableOf(rev))
        && NameTableOf(rev) == loaded.1
        && (st == Success ==> |pairs| == |items| && IdTableOf(fwd) == loaded.0)
        && (st == InvalidArgument ==> |pairs| < |items| && ItemPair(items[|pairs|]).None? && IdTableOf(fwd) == loaded.0)
        && (st == InsertMallocError ==>
              |pairs| < |items| && ItemPair(items[|pairs|]).Some?
              && (IdTableOf(fwd) == loaded.0
                  || IdTableOf(fwd) == LoadPairs(old(IdTableOf(fwd)), old(NameTableOf(rev)), pairs + [ItemPair(items[|pairs|]).value], now).0))
        && (st == Success || st == InvalidArgument || st == InsertMallocError)
    {
      pairs := [];
      if config.Unparsable? {
        return InvalidArgument, pairs;
      }
      var fwd: IdTableName, rev: NameTableName;
      match maptype {
        case UidMapType =>
          fwd, rev := PwNam, PwUid;
        case GidMapType =>
          fwd, rev := GrNam, GrGid;
        case OtherMapType =>
          return InvalidArgument, pairs;
      }
      var block := config.BlockFor(maptype);
      if !block.Block? {
        return InvalidArgument, pairs;
      }
      var items := block.items;
      ghost var f0, r0 := IdTableOf(fwd), NameTableOf(rev);
      for i := 0 to |items|
        invariant |pairs| == i
        invariant Accepted(items, pairs)
        invariant State() == old(State()).WithId(fwd, IdTableOf(fwd)).WithName(rev, NameTableOf(rev))
        invariant (IdTableOf(fwd), NameTableOf(rev)) == LoadPairs(f0, r0, pairs, now)
      {
        var item := items[i];
        if item.Unreadable? || item.errno || item.value > UINT_MAX {
          return InvalidArgument, pairs;
        }
        var p := Pair(item.name, item.value);
        var rc := IdmapAdd(Some(fwd), Some(p.name), p.id, false, now);
        if rc != Success {
          return rc, pairs;
        }
        rc := NamemapAdd(Some(rev), p.id, Some(p.name), false, now);
        if rc != Success {
          return rc, pairs;
        }
        assert (pairs + [p])[..|pairs|] == pairs;
        pairs := pairs + [p];
      }
      st := Success;
    }
  }
}
