// A datastore: the directory <root>/<datastore>, its metadata.json holding
// the store-wide engine, and its collections. The store keeps a cached list
// of collection names, refreshed after each create and delete.
module Stores {
  import opened Values
  import opened Disks
  import opened Items
  import opened Collections

  /** The engine a new datastore records. */
  const DefaultEngine := "fastparquet"

  /** What opening a datastore settles on, and the disk after it. */
  datatype Opened = Opened(engine: Result<Value>, disk: Disk)

  /** `PyStore(datastore)`: a new datastore directory is created with the
      default engine in its metadata; an existing one gives the engine its
      metadata records. */
  function OpenSpec(d: Disk, ds: string): Opened
  {
    if ds !in d.stores then
      var d1 := MakeStoreDir(d, ds);
      Opened(Ok(Str(DefaultEngine)), WriteStoreMetadata(d1, ds, map[EngineKey := Str(DefaultEngine)]))
    else match d.stores[ds].meta
      case None => Opened(Err(NoMetadata), d)
      case Some(meta) =>
        if EngineKey in meta then Opened(Ok(meta[EngineKey]), d)
        else Opened(Err(MissingKey(EngineKey)), d)
  }

  /** `_create_collection`: an existing path is refused, or removed with
      all its items when `overwrite` (which fails on the datastore's own
      metadata file, not a directory); then the collection directory and
      its `_snapshots` subdirectory are made. */
  function CreateCollectionSpec(d: Disk, ds: string, c: string, overwrite: bool): Step
  {
    if (HasCollection(d, ds, c) || StoreFileAt(d, ds, c)) && !overwrite then Step(Fail(CollectionExists), d)
    else if StoreFileAt(d, ds, c) then Step(Fail(NotADirectory), d)
    else
      var d1 := if HasCollection(d, ds, c) then RemoveCollectionDir(d, ds, c) else d;
      Step(Pass, MakeSubdir(MakeCollectionDir(d1, ds, c), ds, c, Snapshots))
  }

  /** `delete_collection`: removes the collection and everything in it; a
      missing one cannot be removed, nor can the datastore's metadata file. */
  function DeleteCollectionSpec(d: Disk, ds: string, c: string): Step
  {
    if StoreFileAt(d, ds, c) then Step(Fail(NotADirectory), d)
    else if HasCollection(d, ds, c) then Step(Pass, RemoveCollectionDir(d, ds, c))
    else Step(Fail(NotFound), d)
  }

  /** A new datastore records the default engine, and has no collections. */
  lemma NewStoreRecordsDefaultEngine(d: Disk, ds: string)
    requires ds !in d.stores
    ensures var o := OpenSpec(d, ds);
      && o.engine == Ok(Str(DefaultEngine))
      && ds in o.disk.stores
      && o.disk.stores[ds].meta == Some(Stamped(d, map[EngineKey := Str(DefaultEngine)]))
      && CollectionNames(o.disk, ds) == Ok({})
  {
    var o := OpenSpec(d, ds);
    assert o.disk.stores[ds].collections == map[];
    assert o.disk.stores[ds].collections.Keys == {};
    assert o.disk.stores[ds].collections.Keys - {Snapshots} == {};
  }

  /** Opening an existing datastore changes nothing on disk, and takes the
      engine from its metadata. */
  lemma ExistingStoreKeepsItsEngine(d: Disk, ds: string)
    requires ds in d.stores
    ensures OpenSpec(d, ds).disk == d
    ensures OpenSpec(d, ds).engine.Ok? <==>
      d.stores[ds].meta.Some? && EngineKey in d.stores[ds].meta.value
    ensures OpenSpec(d, ds).engine.Ok? ==>
      OpenSpec(d, ds).engine.value == d.stores[ds].meta.value[EngineKey]
  {
  }

  /** The engine is store-wide and fixed at creation: opening the datastore
      again finds the engine the first opening settled on, and changes nothing. */
  lemma ReopenFindsSameEngine(d: Disk, ds: string)
    requires OpenSpec(d, ds).engine.Ok?
    ensures OpenSpec(OpenSpec(d, ds).disk, ds) == OpenSpec(d, ds)
  {
  }

  /** Creating an existing collection without `overwrite` raises and changes nothing. */
  lemma CreateRefusesExistingCollection(d: Disk, ds: string, c: string)
    requires HasCollection(d, ds, c)
    ensures CreateCollectionSpec(d, ds, c, false) == Step(Fail(CollectionExists), d)
  {
  }

  /** A created collection, even one that replaced an existing collection,
      holds only `_snapshots`: it lists no items and no item in it opens.
      Every other collection is as it was, and the datastore lists `c`. */
  lemma CreatedCollectionIsEmpty(d: Disk, ds: string, c: string, overwrite: bool)
    requires !HasCollection(d, ds, c) || overwrite
    requires !StoreFileAt(d, ds, c)
    ensures var s := CreateCollectionSpec(d, ds, c, overwrite);
      && s.outcome == Pass
      && HasCollection(s.disk, ds, c)
      && CollectionAt(s.disk, ds, c) == map[Snapshots := EmptyDir]
      && Subdirs(s.disk, ds, c) == Ok({})
      && CollectionNames(s.disk, ds).Ok?
      && forall x :: x in CollectionNames(s.disk, ds).value <==>
           x != Snapshots && (x == c || HasCollection(d, ds, x))
    ensures var s := CreateCollectionSpec(d, ds, c, overwrite);
      forall i :: LoadItem(s.disk, ds, c, i).Err?
    ensures var s := CreateCollectionSpec(d, ds, c, overwrite);
      forall c' :: c' != c ==>
        (HasCollection(s.disk, ds, c') <==> HasCollection(d, ds, c')) &&
        (HasCollection(d, ds, c') ==> CollectionAt(s.disk, ds, c') == CollectionAt(d, ds, c'))
  {
    var s := CreateCollectionSpec(d, ds, c, overwrite);
    assert CollectionAt(s.disk, ds, c) == map[Snapshots := EmptyDir];
    assert CollectionAt(s.disk, ds, c).Keys - {Snapshots} == {};
  }

  /** Deleting removes the collection with all its items and leaves every
      other collection as it was; a missing collection raises. */
  lemma DeleteRemovesCollection(d: Disk, ds: string, c: string)
    ensures var s := DeleteCollectionSpec(d, ds, c);
      s.outcome == Pass <==> HasCollection(d, ds, c) && !StoreFileAt(d, ds, c)
    ensures var s := DeleteCollectionSpec(d, ds, c);
      s.outcome == Pass ==>
        && !HasCollection(s.disk, ds, c)
        && CollectionNames(s.disk, ds) == Ok(CollectionNames(d, ds).value - {c})
        && forall i :: LoadItem(s.disk, ds, c, i) == Err(ItemMissing)
    ensures var s := DeleteCollectionSpec(d, ds, c);
      s.outcome.Fail? ==>
        s == Step(Fail(if StoreFileAt(d, ds, c) then NotADirectory else NotFound), d)
    ensures var s := DeleteCollectionSpec(d, ds, c);
      forall c' :: c' != c ==>
        (HasCollection(s.disk, ds, c') <==> HasCollection(d, ds, c')) &&
        (HasCollection(d, ds, c') ==> CollectionAt(s.disk, ds, c') == CollectionAt(d, ds, c'))
  {
    if DeleteCollectionSpec(d, ds, c).outcome == Pass {
      var keys := d.stores[ds].collections.Keys;
      assert DeleteCollectionSpec(d, ds, c).disk.stores[ds].collections.Keys == keys - {c};
      assert (keys - {c}) - {Snapshots} == (keys - {Snapshots}) - {c};
    }
  }

  /** The datastore's metadata file is no collection: creating one under
      its name raises (as an existing path, or when removing it with
      `overwrite`), deleting it raises, and neither changes the disk. */
  lemma StoreMetadataFileIsNoCollection(d: Disk, ds: string, overwrite: bool)
    requires ds in d.stores && d.stores[ds].meta.Some?
    ensures CreateCollectionSpec(d, ds, MetadataFile, overwrite) ==
      Step(Fail(if overwrite then NotADirectory else CollectionExists), d)
    ensures DeleteCollectionSpec(d, ds, MetadataFile) == Step(Fail(NotADirectory), d)
  {
  }

  /** A collection named `_snapshots` is never listed, so the cached list
      never holds it. */
  lemma SnapshotsIsNeverListed(d: Disk, ds: string)
    requires CollectionNames(d, ds).Ok?
    ensures Snapshots !in CollectionNames(d, ds).value
  {
  }

  class PyStore {
    const fs: FileSystem
    const datastore: string
    const engine: Value
    /** The cached collection names. */
    var collections: set<string>

    constructor Init(fs: FileSystem, datastore: string, engine: Value)
      ensures this.fs == fs && this.datastore == datastore && this.engine == engine
      ensures collections == {}
    {
      this.fs := fs;
      this.datastore := datastore;
      this.engine := engine;
      this.collections := {};
    }

    /** `PyStore(datastore)`, which raises where the recorded engine cannot
        be read. The new handle caches the collections found on disk. */
    static method Open(fs: FileSystem, datastore: string) returns (r: Result<PyStore>)
      modifies fs
      ensures fs.disk == OpenSpec(old(fs.disk), datastore).disk
      ensures OpenSpec(old(fs.disk), datastore).engine.Err? ==>
        r == Err(OpenSpec(old(fs.disk), datastore).engine.error)
      ensures OpenSpec(old(fs.disk), datastore).engine.Ok? ==>
        && r.Ok? && fresh(r.value)
        && r.value.fs == fs && r.value.datastore == datastore
        && r.value.engine == OpenSpec(old(fs.disk), datastore).engine.value
        && CollectionNames(fs.disk, datastore) == Ok(r.value.collections)
    {
      var engine: Value;
      if datastore !in fs.disk.stores {
        fs.disk := MakeStoreDir(fs.disk, datastore);
        fs.disk := WriteStoreMetadata(fs.disk, datastore, map[EngineKey := Str(DefaultEngine)]);
        engine := Str(DefaultEngine);
      } else {
        var meta := fs.disk.stores[datastore].meta;
        if meta.None? {
          return Err(NoMetadata);
        }
        if EngineKey !in meta.value {
          return Err(MissingKey(EngineKey));
        }
        engine := meta.value[EngineKey];
      }
      var store := new PyStore.Init(fs, datastore, engine);
      var names := store.ListCollections();
      store.collections := names.value;
      r := Ok(store);
    }

    /** `list_collections`: the subdirectories of the datastore, as on disk now. */
    method ListCollections() returns (r: Result<set<string>>)
      ensures r == CollectionNames(fs.disk, datastore)
      ensures r.Ok? ==> forall c :: c in r.value <==> HasCollection(fs.disk, datastore, c) && c != Snapshots
    {
      if datastore !in fs.disk.stores {
        return Err(NotFound);
      }
      r := Ok(fs.disk.stores[datastore].collections.Keys - {Snapshots});
    }

    /** `_create_collection`. The handle it returns carries the default
        engine, not the store's. */
    method CreateCollection(c: string, overwrite: bool) returns (r: Result<Collection>)
      modifies this, fs
      ensures var s := CreateCollectionSpec(old(fs.disk), datastore, c, overwrite);
        fs.disk == s.disk && (r.Ok? <==> s.outcome.Pass?) && (r.Err? ==> r.error == s.outcome.error)
      ensures r.Ok? ==>
        && fresh(r.value) && r.value.fs == fs && r.value.datastore == datastore
        && r.value.collection == c && r.value.engine == Str(DefaultEngine)
        && CollectionNames(fs.disk, datastore) == Ok(collections)
      ensures r.Err? ==> collections == old(collections)
    {
      if HasCollection(fs.disk, datastore, c) || StoreFileAt(fs.disk, datastore, c) {
        if !overwrite {
          return Err(CollectionExists);
        }
        var deleted := DeleteCollection(c);
        if deleted.Err? {
          return Err(deleted.error);
        }
      }
      fs.disk := MakeCollectionDir(fs.disk, datastore, c);
      fs.disk := MakeSubdir(fs.disk, datastore, c, Snapshots);
      var names := ListCollections();
      collections := names.value;
      var handle := new Collection(c, datastore, fs, Str(DefaultEngine));
      r := Ok(handle);
    }

    /** `delete_collection`: True once the collection is gone. */
    method DeleteCollection(c: string) returns (r: Result<bool>)
      modifies this, fs
      ensures var s := DeleteCollectionSpec(old(fs.disk), datastore, c);
        fs.disk == s.disk && (r.Ok? <==> s.outcome.Pass?) && (r.Err? ==> r.error == s.outcome.error)
      ensures r.Ok? ==> r.value && CollectionNames(fs.disk, datastore) == Ok(collections)
      ensures r.Err? ==> collections == old(collections)
    {
      if StoreFileAt(fs.disk, datastore, c) {
        return Err(NotADirectory);
      }
      if !HasCollection(fs.disk, datastore, c) {
        return Err(NotFound);
      }
      fs.disk := RemoveCollectionDir(fs.disk, datastore, c);
      var names := ListCollections();
      collections := names.value;
      r := Ok(true);
    }

    /** `collection(name, overwrite)`: a name in the cached list, without
        `overwrite`, gives a handle and touches nothing; any other call
        creates the collection. Either way the handle carries the store's engine. */
    method GetCollection(c: string, overwrite: bool) returns (r: Result<Collection>)
      modifies this, fs
      ensures c in old(collections) && !overwrite ==>
        r.Ok? && fs.disk == old(fs.disk) && collections == old(collections)
      ensures !(c in old(collections) && !overwrite) ==>
        var s := CreateCollectionSpec(old(fs.disk), datastore, c, overwrite);
        fs.disk == s.disk && (r.Ok? <==> s.outcome.Pass?) && (r.Err? ==> r.error == s.outcome.error)
      ensures !(c in old(collections) && !overwrite) && r.Ok? ==>
        CollectionNames(fs.disk, datastore) == Ok(collections)
      ensures r.Err? ==> collections == old(collections)
      ensures r.Ok? ==>
        fresh(r.value) && r.value.fs == fs && r.value.datastore == datastore &&
        r.value.collection == c && r.value.engine == engine
    {
      if c in collections && !overwrite {
        var handle := new Collection(c, datastore, fs, engine);
        return Ok(handle);
      }
      var created := CreateCollection(c, overwrite);
      if created.Err? {
        return Err(created.error);
      }
      var handle := new Collection(c, datastore, fs, engine);
      r := Ok(handle);
    }
  }
}
