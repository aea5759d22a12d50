/** PersistentMemoryHashMap: a MemoryHashMap whose mutations are mirrored into
    bucket "default" of a Bolt database while the backend keeps working. */
module PersistentMemoryHashMaps {
  import opened Base
  import opened MemoryHashMaps
  import opened WriteThrough

  class PersistentMemoryHashMap<V> {
    /** The type of the stored objects, by the capabilities the map uses. */
    const objtype: Codec<V>
    /** The in-memory map, the only source for reads. */
    const memoryMap: MemoryHashMap<V>
    /** Folder and file name of the Bolt database. */
    const dbfolder: string
    const dbfile: string
    /** The latch: while false, the instance behaves as a plain MemoryHashMap. */
    var isPersistenceAvailable: bool
    /** The contents of bucket "default" as far as this instance has written them. */
    ghost var disk: map<Key, Bytes>

    /** The instance's state in the terms of the WriteThrough specification. */
    ghost function Snapshot(): State<V>
      reads this, memoryMap
    {
      State(memoryMap.list, isPersistenceAvailable, disk)
    }

    /** The fields as `new` plus the assignments before the backend is probed leave
        them: an empty memory map and the latch down. */
    constructor (objtype: Codec<V>, dbfolder: string, dbfile: string)
      ensures this.objtype == objtype && this.dbfolder == dbfolder && this.dbfile == dbfile
      ensures fresh(memoryMap)
      ensures Snapshot() == State(map[], false, map[])
    {
      this.objtype := objtype;
      this.dbfolder := dbfolder;
      this.dbfile := dbfile;
      memoryMap := new MemoryHashMap();
      isPersistenceAvailable := false;
      disk := map[];
    }

    /** The number of objects in memory. */
    method Count() returns (n: int)
      ensures n == |memoryMap.list|
    {
      n := |memoryMap.list|;
    }

    /** All objects in memory, by key. */
    method GetList() returns (all: map<Key, V>)
      ensures all == memoryMap.list
    {
      all := memoryMap.list;
    }

    /** The object in memory under `key`, or None; the backend is never consulted. */
    method FindByKey(key: Key) returns (value: Option<V>)
      ensures value == Find(memoryMap.list, key)
    {
      value := memoryMap.FindByKey(key);
    }

    /** Upserts in memory, then, while the latch is up, writes the encoded value
        through to the bucket; `env` says which backend step fails, if any. */
    method AddUpdateObject(key: Key, value: V, env: Backend)
      modifies this, memoryMap
      ensures memoryMap.list == Upsert(old(memoryMap.list), key, value)
      ensures Snapshot() == Apply(old(Snapshot()), AddUpdate(key, value), env, objtype.encode)
    {
      memoryMap.list := memoryMap.list[key := value];
      if isPersistenceAvailable {
        if env == FolderMissing {
          isPersistenceAvailable := false;
          return;
        }
        if env == OpenFails {
          isPersistenceAvailable := false;
          return;
        }
        if env == BucketFails {
          isPersistenceAvailable := false;
          return;
        }
        var encoded := objtype.encode(value);
        if encoded.None? {
          return;
        }
        // the Put transaction fails, or Bolt's Put rejects the key
        if env == TxFails || !PutAccepts(key) {
          isPersistenceAvailable := false;
        } else {
          disk := disk[key := encoded.value];
        }
      }
    }

    /** Deletes in memory, then, while the latch is up, deletes the key from the
        bucket; `env` says which backend step fails, if any. */
    method DeleteObject(key: Key, env: Backend)
      modifies this, memoryMap
      ensures memoryMap.list == Erase(old(memoryMap.list), key)
      ensures Snapshot() == Apply(old(Snapshot()), Delete(key), env, objtype.encode)
    {
      memoryMap.list := memoryMap.list - {key};
      if isPersistenceAvailable {
        if env == FolderMissing {
          isPersistenceAvailable := false;
          return;
        }
        if env == OpenFails {
          isPersistenceAvailable := false;
          return;
        }
        if env == BucketFails {
          isPersistenceAvailable := false;
          return;
        }
        if env == TxFails {
          isPersistenceAvailable := false;
        } else {
          disk := disk - {key};
        }
      }
    }
  }

  /** Builds an instance and tries to load the bucket's records `stored`, visited by
      ForEach in `order`; `env` says which backend step fails, if any. The instance
      is always returned; the error says which step failed. */
  method CreatePersistentMemoryHashMap<V>(objtype: Codec<V>, dbfolder: string, dbfile: string,
                                          env: Backend, order: seq<Key>, stored: map<Key, Bytes>)
    returns (pmhm: PersistentMemoryHashMap<V>, err: Option<StartupError>)
    requires Enumerates(order, stored)
    ensures fresh(pmhm) && fresh(pmhm.memoryMap)
    ensures pmhm.objtype == objtype && pmhm.dbfolder == dbfolder && pmhm.dbfile == dbfile
    ensures Started(pmhm.Snapshot(), err) == Startup(env, order, stored, objtype.decode)
  {
    pmhm := new PersistentMemoryHashMap(objtype, dbfolder, dbfile);
    pmhm.disk := stored;
    if env == FolderMissing {
      pmhm.isPersistenceAvailable := false;
      return pmhm, Some(DirectoryMissing);
    }
    if env == OpenFails {
      pmhm.isPersistenceAvailable := false;
      return pmhm, Some(OpenError);
    }
    if env == BucketFails {
      pmhm.isPersistenceAvailable := false;
      return pmhm, Some(BucketError);
    }
    if env == TxFails {
      pmhm.isPersistenceAvailable := false;
      return pmhm, Some(ReadError);
    }
    var i := 0;
    while i < |order|
      invariant 0 <= i <= |order|
      invariant pmhm.Snapshot().avail == false && pmhm.disk == stored
      invariant Replay(pmhm.memoryMap.list, order[i..], stored, objtype.decode)
             == Replay(map[], order, stored, objtype.decode)
    {
      var decoded := objtype.decode(stored[order[i]]);
      if !decoded.Succeeded() {
        break;
      }
      pmhm.memoryMap.AddUpdateObject(order[i], decoded.value);
      i := i + 1;
    }
    pmhm.isPersistenceAvailable := true;
    err := None;
  }
}
