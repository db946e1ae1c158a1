/** The key/value store wrapper (src/storage/storage.ts): a lazily ready
    storage engine whose every failure is swallowed, and the module-level
    facade that creates the wrapper on first use. */
module KeyValueStore {
  import opened Items

  /** A value as the store holds it. Serialisation to JSON and back is
      taken to be the identity, so a stored value is one of the shapes the
      application writes. */
  datatype Value =
    | ItemList(items: seq<Item>)
    | TextList(texts: seq<string>)
    | Text(text: string)
    | Flag(flag: bool)

  /** The `Storage` class. `data` is what the engine holds on the device;
      `ready` says whether the engine handle (`_storage`) exists yet.
      `engineOk` on each call says whether creating the engine would succeed
      at that moment; once created, the engine's own calls succeed. */
  class Storage {
    var ready: bool
    var data: map<string, Value>

    constructor (persisted: map<string, Value>)
      ensures !ready && data == persisted
    {
      ready := false;
      data := persisted;
    }

    /** `getStorage`: creates the engine at most once; a failed creation
        leaves no handle, so the next call tries again. */
    method Open(engineOk: bool) returns (ok: bool)
      modifies this`ready
      ensures ready == (old(ready) || engineOk)
      ensures ok == ready
    {
      if !ready && engineOk {
        ready := true;
      }
      ok := ready;
    }

    method Set(key: string, value: Value, engineOk: bool)
      modifies this
      ensures ready == (old(ready) || engineOk)
      ensures data == if ready then old(data)[key := value] else old(data)
    {
      var ok := Open(engineOk);
      if ok {
        data := data[key := value];
      }
    }

    /** Returns the stored value, or `default` when the key is absent or the
        engine cannot be reached. */
    method Get(key: string, default: Value, engineOk: bool) returns (v: Value)
      modifies this`ready
      ensures ready == (old(ready) || engineOk)
      ensures v == if ready && key in data then data[key] else default
    {
      var ok := Open(engineOk);
      if ok && key in data {
        v := data[key];
      } else {
        v := default;
      }
    }

    method Remove(key: string, engineOk: bool)
      modifies this
      ensures ready == (old(ready) || engineOk)
      ensures data == if ready then old(data) - {key} else old(data)
    {
      var ok := Open(engineOk);
      if ok {
        data := data - {key};
      }
    }

    method Clear(engineOk: bool)
      modifies this
      ensures ready == (old(ready) || engineOk)
      ensures data == if ready then map[] else old(data)
    {
      var ok := Open(engineOk);
      if ok {
        data := map[];
      }
    }

    method Contains(key: string, engineOk: bool) returns (b: bool)
      modifies this`ready
      ensures ready == (old(ready) || engineOk)
      ensures b == (ready && key in data)
    {
      var ok := Open(engineOk);
      b := ok && key in data;
    }
  }

  /** The exported `storage` object: every call goes through one `Storage`
      instance, created on the first call. `disk` is what the device holds
      when the process starts. */
  class StorageFacade {
    var instance: Storage?
    const disk: map<string, Value>

    constructor (disk: map<string, Value>)
      ensures instance == null && this.disk == disk
    {
      instance := null;
      this.disk := disk;
    }

    /** What a read of the store would see. */
    ghost function Contents(): map<string, Value>
      reads this, instance
    {
      if instance == null then disk else instance.data
    }

    ghost predicate IsOpen()
      reads this, instance
    {
      instance != null && instance.ready
    }

    /** The instance exists after a call: the one there was before, or a
        new one when there was none. */
    twostate predicate SameInstance()
      reads this
    {
      && instance != null
      && (old(instance) != null ==> instance == old(instance))
      && (old(instance) == null ==> fresh(instance))
    }

    /** The weaker promise of a caller that may not have touched the store:
        an instance that existed is kept, and any instance is new or old. */
    twostate predicate Kept()
      reads this
    {
      && (old(instance) != null ==> instance == old(instance))
      && (old(instance) == null ==> instance == null || fresh(instance))
    }

    /** `getStorageInstance`: the instance is created once and then reused. */
    method Instance() returns (s: Storage)
      modifies this
      ensures instance == s
      ensures old(instance) != null ==> s == old(instance)
      ensures old(instance) == null ==> fresh(s) && !s.ready && s.data == disk
    {
      if instance == null {
        instance := new Storage(disk);
      }
      s := instance;
    }

    method Set(key: string, value: Value, engineOk: bool)
      modifies this, instance
      ensures SameInstance()
      ensures IsOpen() == (old(IsOpen()) || engineOk)
      ensures Contents() == if IsOpen() then old(Contents())[key := value] else old(Contents())
    {
      var s := Instance();
      s.Set(key, value, engineOk);
    }

    method Get(key: string, default: Value, engineOk: bool) returns (v: Value)
      modifies this, instance
      ensures SameInstance()
      ensures IsOpen() == (old(IsOpen()) || engineOk)
      ensures Contents() == old(Contents())
      ensures v == if IsOpen() && key in Contents() then Contents()[key] else default
    {
      var s := Instance();
      v := s.Get(key, default, engineOk);
    }

    method Remove(key: string, engineOk: bool)
      modifies this, instance
      ensures SameInstance()
      ensures IsOpen() == (old(IsOpen()) || engineOk)
      ensures Contents() == if IsOpen() then old(Contents()) - {key} else old(Contents())
    {
      var s := Instance();
      s.Remove(key, engineOk);
    }

    /** `storage.delete` is `remove` under another name. */
    method Delete(key: string, engineOk: bool)
      modifies this, instance
      ensures SameInstance()
      ensures IsOpen() == (old(IsOpen()) || engineOk)
      ensures Contents() == if IsOpen() then old(Contents()) - {key} else old(Contents())
    {
      Remove(key, engineOk);
    }

    method Clear(engineOk: bool)
      modifies this, instance
      ensures SameInstance()
      ensures IsOpen() == (old(IsOpen()) || engineOk)
      ensures Contents() == if IsOpen() then map[] else old(Contents())
    {
      var s := Instance();
      s.Clear(engineOk);
    }

    method Contains(key: string, engineOk: bool) returns (b: bool)
      modifies this, instance
      ensures SameInstance()
      ensures IsOpen() == (old(IsOpen()) || engineOk)
      ensures Contents() == old(Contents())
      ensures b == (IsOpen() && key in Contents())
    {
      var s := Instance();
      b := s.Contains(key, engineOk);
    }
  }
}
