/**
 * mysql.go: a registry of open GORM connections keyed by name. The package's
 * global `container` map is the state of one `Container` object.
 *
 * The GORM and driver calls become oracles passed in by the caller:
 * `open(dsn)` is the outcome of `gorm.Open` on a data source name (`None`
 * for an error), `poolOk(db)` says whether `db.DB()` hands back the
 * underlying `*sql.DB` pool rather than an error, and the outcomes of
 * `sqlmock.New` and of opening the mock dialer are plain parameters.
 */
module Registry {
  import opened Wrappers
  import Config

  /** A `*gorm.DB`: opaque, compared only for identity. */
  type Handle(==)

  /** `defaultKey`. */
  const DefaultKey: string := "default"

  /** Why an operation panicked. */
  datatype Panic =
    | NilConnection   // GenDSN dereferenced a nil Connection
    | OpenFailed      // gorm.Open returned an error
    | PoolFailed      // db.DB() returned an error
    | MockFailed      // sqlmock.New returned an error

  /** How an operation ended: normally, or with a panic. */
  datatype Status = Done | Panicked(reason: Panic)

  /** The entry `DeregisterByKey` leaves behind: the key is dropped only once its pool was closed. */
  function Deregistered(m: map<string, Handle>, key: string, poolOk: Handle -> bool): (r: map<string, Handle>)
    ensures forall k :: k in r ==> k in m && r[k] == m[k]
    ensures forall k :: k != key ==> (k in r <==> k in m)
    ensures key in r <==> key in m && !poolOk(m[key])
  {
    if key in m && poolOk(m[key]) then m - {key} else m
  }

  /** The pools `DeregisterByKey` closes: the one under `key`, if present and reachable. */
  function Released(m: map<string, Handle>, key: string, poolOk: Handle -> bool): (r: seq<Handle>)
    ensures |r| <= 1
    ensures r != [] <==> key in m && poolOk(m[key])
    ensures r != [] ==> r[0] == m[key]
  {
    if key in m && poolOk(m[key]) then [m[key]] else []
  }

  /** Deregistering an absent key changes nothing and closes nothing. */
  lemma DeregisterAbsent(m: map<string, Handle>, key: string, poolOk: Handle -> bool)
    requires key !in m
    ensures Deregistered(m, key, poolOk) == m && Released(m, key, poolOk) == []
  {
  }

  /**
   * Deregistering a key right after registering a handle whose pool is
   * reachable closes exactly that handle and removes the key.
   */
  lemma DeregisterAfterRegister(m: map<string, Handle>, key: string, h: Handle, poolOk: Handle -> bool)
    requires poolOk(h)
    ensures Deregistered(m[key := h], key, poolOk) == m - {key}
    ensures Released(m[key := h], key, poolOk) == [h]
  {
  }

  /** The handles stored under `keys`, in that order. */
  ghost function HandlesAt(m: map<string, Handle>, keys: seq<string>): (r: seq<Handle>)
    requires forall i :: 0 <= i < |keys| ==> keys[i] in m
    ensures |r| == |keys|
    ensures forall i :: 0 <= i < |keys| ==> r[i] == m[keys[i]]
    decreases |keys|
  {
    if keys == [] then [] else HandlesAt(m, keys[..|keys| - 1]) + [m[keys[|keys| - 1]]]
  }

  class Container {
    /** `container`: key to handle. */
    var entries: map<string, Handle>
    /** Every pool on which `sqlDB.Close()` was called, in call order. */
    var closed: seq<Handle>

    /** `make(map[string]*gorm.DB)`: nothing registered, nothing closed. */
    constructor ()
      ensures entries == map[] && closed == []
    {
      entries := map[];
      closed := [];
    }

    /** `GetDBByKey`: the handle under `key`, or nil. */
    method GetDBByKey(key: string) returns (db: Option<Handle>)
      ensures db.Some? <==> key in entries
      ensures db.Some? ==> db.value == entries[key]
    {
      if key in entries {
        db := Some(entries[key]);
      } else {
        db := None;
      }
    }

    /** `GetDB`: `GetDBByKey` on "default". */
    method GetDB() returns (db: Option<Handle>)
      ensures db.Some? <==> DefaultKey in entries
      ensures db.Some? ==> db.value == entries[DefaultKey]
    {
      db := GetDBByKey(DefaultKey);
    }

    /**
     * `DeregisterByKey`: an absent key is a no-op. Otherwise, if `db.DB()`
     * fails the entry stays; if it succeeds the pool is closed and the key
     * removed, whether or not `Close` reports an error.
     */
    method DeregisterByKey(key: string, poolOk: Handle -> bool)
      modifies this
      ensures entries == Deregistered(old(entries), key, poolOk)
      ensures closed == old(closed) + Released(old(entries), key, poolOk)
    {
      if key !in entries {
        return;
      }
      var db := entries[key];
      if !poolOk(db) {
        return;
      }
      closed := closed + [db];
      entries := entries - {key};
    }

    /** `Deregister`: `DeregisterByKey` on "default". */
    method Deregister(poolOk: Handle -> bool)
      modifies this
      ensures entries == Deregistered(old(entries), DefaultKey, poolOk)
      ensures closed == old(closed) + Released(old(entries), DefaultKey, poolOk)
    {
      DeregisterByKey(DefaultKey, poolOk);
    }

    /**
     * `RegisterByKey`: deregisters `key` first, then renders the DSN, opens
     * it and looks up its pool; the first failure panics, leaving the state
     * of the deregistration step. On success `key` maps to the new handle.
     * The pool-size setters act on the driver's pool and are not modelled.
     */
    method RegisterByKey(config: Config.Config, key: string, open: string -> Option<Handle>,
                         poolOk: Handle -> bool) returns (status: Status)
      modifies this
      ensures closed == old(closed) + Released(old(entries), key, poolOk)
      ensures config.connection.None? ==>
                status == Panicked(NilConnection) && entries == Deregistered(old(entries), key, poolOk)
      ensures config.connection.Some? ==>
                var db := open(Config.GenDSN(config).value);
                && (db.None? ==>
                      status == Panicked(OpenFailed) && entries == Deregistered(old(entries), key, poolOk))
                && (db.Some? && !poolOk(db.value) ==>
                      status == Panicked(PoolFailed) && entries == Deregistered(old(entries), key, poolOk))
                && (db.Some? && poolOk(db.value) ==>
                      status == Done && entries == old(entries)[key := db.value])
    {
      DeregisterByKey(key, poolOk);
      var dsn := Config.GenDSN(config);
      if dsn.None? {
        return Panicked(NilConnection);
      }
      var db := open(dsn.value);
      if db.None? {
        return Panicked(OpenFailed);
      }
      if !poolOk(db.value) {
        return Panicked(PoolFailed);
      }
      entries := entries[key := db.value];
      status := Done;
    }

    /** `Register`: `RegisterByKey` on "default". */
    method Register(config: Config.Config, open: string -> Option<Handle>, poolOk: Handle -> bool)
      returns (status: Status)
      modifies this
      ensures closed == old(closed) + Released(old(entries), DefaultKey, poolOk)
      ensures config.connection.None? ==>
                status == Panicked(NilConnection) && entries == Deregistered(old(entries), DefaultKey, poolOk)
      ensures config.connection.Some? ==>
                var db := open(Config.GenDSN(config).value);
                && (db.None? ==>
                      status == Panicked(OpenFailed) && entries == Deregistered(old(entries), DefaultKey, poolOk))
                && (db.Some? && !poolOk(db.value) ==>
                      status == Panicked(PoolFailed) && entries == Deregistered(old(entries), DefaultKey, poolOk))
                && (db.Some? && poolOk(db.value) ==>
                      status == Done && entries == old(entries)[DefaultKey := db.value])
    {
      status := RegisterByKey(config, DefaultKey, open, poolOk);
    }

    /**
     * `MockDBByKey`: stores a handle over a mock connection under `key`,
     * overwriting whatever was there without closing it.
     */
    method MockDBByKey(key: string, mockCreated: bool, gdb: Option<Handle>) returns (status: Status)
      modifies this
      ensures closed == old(closed)
      ensures !mockCreated ==> status == Panicked(MockFailed) && entries == old(entries)
      ensures mockCreated && gdb.None? ==> status == Panicked(OpenFailed) && entries == old(entries)
      ensures mockCreated && gdb.Some? ==> status == Done && entries == old(entries)[key := gdb.value]
    {
      if !mockCreated {
        return Panicked(MockFailed);
      }
      if gdb.None? {
        return Panicked(OpenFailed);
      }
      entries := entries[key := gdb.value];
      status := Done;
    }

    /** `MockDB`: `MockDBByKey` on "default". */
    method MockDB(mockCreated: bool, gdb: Option<Handle>) returns (status: Status)
      modifies this
      ensures closed == old(closed)
      ensures !mockCreated ==> status == Panicked(MockFailed) && entries == old(entries)
      ensures mockCreated && gdb.None? ==> status == Panicked(OpenFailed) && entries == old(entries)
      ensures mockCreated && gdb.Some? ==> status == Done && entries == old(entries)[DefaultKey := gdb.value]
    {
      status := MockDBByKey(DefaultKey, mockCreated, gdb);
    }

    /**
     * `Close`: visits the entries in some order (Go leaves map order
     * unspecified), closing each pool, and returns at the first entry whose
     * `db.DB()` fails. No key is removed. `order` is the sequence of keys
     * whose pools were closed.
     */
    method Close(poolOk: Handle -> bool) returns (ghost order: seq<string>)
      modifies this`closed
      ensures forall i, j :: 0 <= i < j < |order| ==> order[i] != order[j]
      ensures forall i :: 0 <= i < |order| ==> order[i] in entries && poolOk(entries[order[i]])
      ensures closed == old(closed) + HandlesAt(entries, order)
      ensures |order| == |entries| || exists k :: k in entries && k !in order && !poolOk(entries[k])
    {
      var remaining := entries.Keys;
      order := [];
      while remaining != {}
        invariant remaining <= entries.Keys
        invariant forall i :: 0 <= i < |order| ==> order[i] in entries && order[i] !in remaining
        invariant forall i :: 0 <= i < |order| ==> poolOk(entries[order[i]])
        invariant forall i, j :: 0 <= i < j < |order| ==> order[i] != order[j]
        invariant |order| + |remaining| == |entries|
        invariant closed == old(closed) + HandlesAt(entries, order)
        decreases remaining
      {
        var id :| id in remaining;
        var db := entries[id];
        if !poolOk(db) {
          return;
        }
        closed := closed + [db];
        assert (order + [id])[..|order|] == order;
        order := order + [id];
        remaining := remaining - {id};
      }
    }
  }
}
