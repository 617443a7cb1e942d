// The directory tree under the datastore root, held in memory:
//   <root>/<datastore>/metadata.json
//   <root>/<datastore>/<collection>/_snapshots/
//   <root>/<datastore>/<collection>/<item>/metadata.json
//   <root>/<datastore>/<collection>/<item>/data.<file_type>
// and the filesystem primitives the store calls, as functions on it.
module Disks {
  import opened Values
  import opened Frames

  /** The reserved subdirectory every collection is created with. */
  const Snapshots := "_snapshots"

  /** A directory below a collection: its metadata.json, if any, and its data files by name. */
  datatype ItemDir = ItemDir(meta: Option<Metadata>, files: map<string, Frame>)

  const EmptyDir := ItemDir(None, map[])

  /** A collection directory: every subdirectory by name, `_snapshots` included. */
  type CollectionDir = map<string, ItemDir>

  /** A datastore directory: its metadata.json, if any, and its collections. */
  datatype StoreDir = StoreDir(meta: Option<Metadata>, collections: map<string, CollectionDir>)

  /** The datastore root, and the clock the `_updated` stamps are read from. */
  datatype Disk = Disk(stores: map<string, StoreDir>, clock: int)

  /** What an operation on the store returns and leaves on disk. */
  datatype Step = Step(outcome: Outcome, disk: Disk)

  /** The one filesystem all handles share. */
  class FileSystem {
    var disk: Disk

    constructor (disk: Disk)
      ensures this.disk == disk
    {
      this.disk := disk;
    }
  }

  predicate HasCollection(d: Disk, ds: string, c: string)
  {
    ds in d.stores && c in d.stores[ds].collections
  }

  predicate HasItemDir(d: Disk, ds: string, c: string, i: string)
  {
    HasCollection(d, ds, c) && i in d.stores[ds].collections[c]
  }

  function CollectionAt(d: Disk, ds: string, c: string): CollectionDir
    requires HasCollection(d, ds, c)
  {
    d.stores[ds].collections[c]
  }

  function ItemAt(d: Disk, ds: string, c: string, i: string): ItemDir
    requires HasItemDir(d, ds, c, i)
  {
    d.stores[ds].collections[c][i]
  }

  /** The directory at `ds/c/i`, or None where there is none. */
  function Lookup(d: Disk, ds: string, c: string, i: string): Option<ItemDir>
  {
    if HasItemDir(d, ds, c, i) then Some(ItemAt(d, ds, c, i)) else None
  }

  /** `utils.subdirs` of a collection: the names of its subdirectories,
      leaving out `_snapshots`; a missing directory cannot be listed. */
  function Subdirs(d: Disk, ds: string, c: string): Result<set<string>>
  {
    if HasCollection(d, ds, c) then Ok(CollectionAt(d, ds, c).Keys - {Snapshots})
    else Err(NotFound)
  }

  /** `utils.subdirs` of a datastore: the names of its collections,
      leaving out `_snapshots` as for a collection's subdirectories. */
  function CollectionNames(d: Disk, ds: string): Result<set<string>>
  {
    if ds in d.stores then Ok(d.stores[ds].collections.Keys - {Snapshots}) else Err(NotFound)
  }

  /** The name of the metadata file in a datastore or item directory. */
  const MetadataFile := "metadata.json"

  /** The datastore's own metadata file sits at `<root>/<ds>/<name>`. */
  predicate StoreFileAt(d: Disk, ds: string, name: string)
  {
    ds in d.stores && d.stores[ds].meta.Some? && name == MetadataFile
  }

  /** Reading `ds/c/i/<file>` with either codec: the frame stored there. */
  function ReadFile(d: Disk, ds: string, c: string, i: string, file: string): Result<Frame>
  {
    if HasItemDir(d, ds, c, i) && file in ItemAt(d, ds, c, i).files
    then Ok(ItemAt(d, ds, c, i).files[file])
    else Err(NotFound)
  }

  /** The mapping `utils.write_metadata` stores: the given one, stamped with the current time. */
  function Stamped(d: Disk, meta: Metadata): Metadata
  {
    meta[UpdatedKey := Time(d.clock)]
  }

  /** Replaces the directory at `ds/c/i`. */
  function PutItem(d: Disk, ds: string, c: string, i: string, dir: ItemDir): Disk
    requires HasCollection(d, ds, c)
  {
    var s := d.stores[ds];
    d.(stores := d.stores[ds := s.(collections := s.collections[c := s.collections[c][i := dir]])])
  }

  /** Writing `ds/c/i/<file>`: the codec creates the item directory if
      it is missing, and leaves the item's other files in place. */
  function WriteDataFile(d: Disk, ds: string, c: string, i: string, file: string, f: Frame): Disk
    requires HasCollection(d, ds, c)
  {
    var dir := if HasItemDir(d, ds, c, i) then ItemAt(d, ds, c, i) else EmptyDir;
    PutItem(d, ds, c, i, dir.(files := dir.files[file := f]))
  }

  /** `utils.write_metadata` of `ds/c/i/metadata.json`; every write reads a fresh stamp. */
  function WriteItemMetadata(d: Disk, ds: string, c: string, i: string, meta: Metadata): Disk
    requires HasItemDir(d, ds, c, i)
  {
    var dir := ItemAt(d, ds, c, i);
    PutItem(d, ds, c, i, dir.(meta := Some(Stamped(d, meta)))).(clock := d.clock + 1)
  }

  /** `os.makedirs(<root>/<ds>)`. */
  function MakeStoreDir(d: Disk, ds: string): Disk
    requires ds !in d.stores
  {
    d.(stores := d.stores[ds := StoreDir(None, map[])])
  }

  /** `utils.write_metadata` of `<root>/<ds>/metadata.json`. */
  function WriteStoreMetadata(d: Disk, ds: string, meta: Metadata): Disk
    requires ds in d.stores
  {
    d.(stores := d.stores[ds := d.stores[ds].(meta := Some(Stamped(d, meta)))], clock := d.clock + 1)
  }

  /** `os.makedirs(<root>/<ds>/<c>)`: creates the datastore directory too
      if it is missing (without a metadata.json). */
  function MakeCollectionDir(d: Disk, ds: string, c: string): Disk
    requires !HasCollection(d, ds, c)
  {
    var s := if ds in d.stores then d.stores[ds] else StoreDir(None, map[]);
    d.(stores := d.stores[ds := s.(collections := s.collections[c := map[]])])
  }

  /** `os.makedirs(<root>/<ds>/<c>/<sub>)` for an empty subdirectory. */
  function MakeSubdir(d: Disk, ds: string, c: string, sub: string): Disk
    requires HasCollection(d, ds, c) && !HasItemDir(d, ds, c, sub)
  {
    PutItem(d, ds, c, sub, EmptyDir)
  }

  /** `shutil.rmtree(<root>/<ds>/<c>)`: the collection and everything in it. */
  function RemoveCollectionDir(d: Disk, ds: string, c: string): Disk
    requires HasCollection(d, ds, c)
  {
    var s := d.stores[ds];
    d.(stores := d.stores[ds := s.(collections := s.collections - {c})])
  }
}
