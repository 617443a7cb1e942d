// An item: one dataset and its metadata, in the directory
// <datastore>/<collection>/<item>. Opening it reads the metadata at once;
// the dataset is read on first access to `data` and kept.
module Items {
  import opened Values
  import opened Frames
  import opened Disks

  /** The two file types, which are also the data files' extensions. */
  const Parquet := "parquet"
  const Pickle := "pickle"

  datatype Reader = ParquetReader | PickleReader

  /** The decoder `data` dispatches to for a file type; any other type has none. */
  function ReaderFor(fileType: string): Option<Reader>
  {
    if fileType == Parquet then Some(ParquetReader)
    else if fileType == Pickle then Some(PickleReader)
    else None
  }

  /** The data file of an item, named after its file type. */
  function DataFileName(fileType: string): string
  {
    "data." + fileType
  }

  /** What opening an item records: its metadata and its file type. */
  datatype ItemView = ItemView(metadata: Metadata, fileType: string)

  /** Opening `ds/c/i`: the directory must exist (a directory without a
      metadata.json passes this check and fails on the read after it), the
      metadata must hold `file_type`, and that must be a string. */
  function LoadItem(d: Disk, ds: string, c: string, i: string): Result<ItemView>
  {
    if !HasItemDir(d, ds, c, i) then Err(ItemMissing)
    else match ItemAt(d, ds, c, i).meta
      case None => Err(NoMetadata)
      case Some(meta) =>
        if FileTypeKey !in meta then Err(MissingKey(FileTypeKey))
        else if !meta[FileTypeKey].Str? then Err(NotAString)
        else Ok(ItemView(meta, meta[FileTypeKey].s))
  }

  /** What the first access to `data` evaluates to. An unknown file type
      builds an error without raising it, so `data` is None. */
  function ReadData(d: Disk, ds: string, c: string, i: string, fileType: string): Result<Option<Frame>>
  {
    match ReaderFor(fileType)
    case None => Ok(None)
    case Some(_) =>
      match ReadFile(d, ds, c, i, DataFileName(fileType))
      case Ok(f) => Ok(Some(f))
      case Err(e) => Err(e)
  }

  /** Opening fails for a missing item directory and for nothing else:
      the check looks at the directory, not at its metadata.json. */
  lemma OpenChecksDirectory(d: Disk, ds: string, c: string, i: string)
    ensures LoadItem(d, ds, c, i) == Err(ItemMissing) <==> !HasItemDir(d, ds, c, i)
    ensures HasItemDir(d, ds, c, i) && ItemAt(d, ds, c, i).meta.None? ==> LoadItem(d, ds, c, i) == Err(NoMetadata)
  {
  }

  /** An opened item's file type is the string its metadata records. */
  lemma OpenRecordsFileType(d: Disk, ds: string, c: string, i: string)
    requires LoadItem(d, ds, c, i).Ok?
    ensures var v := LoadItem(d, ds, c, i).value;
      HasItemDir(d, ds, c, i) && ItemAt(d, ds, c, i).meta == Some(v.metadata) &&
      FileTypeKey in v.metadata && v.metadata[FileTypeKey] == Str(v.fileType)
  {
  }

  /** The reader is chosen by the recorded file type alone: a parquet or
      pickle item reads the file named after it, any other type reads as
      None whatever files the directory holds. */
  lemma ReadDispatchesOnFileType(d: Disk, ds: string, c: string, i: string, fileType: string)
    ensures fileType != Parquet && fileType != Pickle ==> ReadData(d, ds, c, i, fileType) == Ok(None)
    ensures fileType == Parquet || fileType == Pickle ==>
      ReadData(d, ds, c, i, fileType) ==
        if HasItemDir(d, ds, c, i) && DataFileName(fileType) in ItemAt(d, ds, c, i).files
        then Ok(Some(ItemAt(d, ds, c, i).files[DataFileName(fileType)]))
        else Err(NotFound)
  {
  }

  class Item {
    const fs: FileSystem
    const datastore: string
    const collection: string
    const item: string
    const metadata: Metadata
    const fileType: string
    const dataPath: string
    /** The `cached_property` slot: None until `data` has been evaluated. */
    var cache: Option<Option<Frame>>

    /** The data path is the one named after the file type. */
    predicate Valid()
    {
      dataPath == DataFileName(fileType)
    }

    constructor Init(fs: FileSystem, datastore: string, collection: string, item: string, view: ItemView)
      ensures this.fs == fs && this.datastore == datastore && this.collection == collection && this.item == item
      ensures metadata == view.metadata && fileType == view.fileType && Valid()
      ensures cache == None
    {
      this.fs := fs;
      this.datastore := datastore;
      this.collection := collection;
      this.item := item;
      this.metadata := view.metadata;
      this.fileType := view.fileType;
      this.dataPath := DataFileName(view.fileType);
      this.cache := None;
    }

    /** `Item(item, datastore, collection)`: raises where LoadItem fails,
        otherwise reads the metadata now and leaves the data unread. */
    static method Open(fs: FileSystem, datastore: string, collection: string, item: string) returns (r: Result<Item>)
      ensures LoadItem(fs.disk, datastore, collection, item).Err? ==>
        r == Err(LoadItem(fs.disk, datastore, collection, item).error)
      ensures LoadItem(fs.disk, datastore, collection, item).Ok? ==>
        r.Ok? && fresh(r.value) && r.value.Valid() && r.value.cache == None &&
        r.value.fs == fs && r.value.datastore == datastore &&
        r.value.collection == collection && r.value.item == item &&
        ItemView(r.value.metadata, r.value.fileType) == LoadItem(fs.disk, datastore, collection, item).value
    {
      if !HasItemDir(fs.disk, datastore, collection, item) {
        return Err(ItemMissing);
      }
      var meta := ItemAt(fs.disk, datastore, collection, item).meta;
      if meta.None? {
        return Err(NoMetadata);
      }
      if FileTypeKey !in meta.value {
        return Err(MissingKey(FileTypeKey));
      }
      var fileType := meta.value[FileTypeKey];
      if !fileType.Str? {
        return Err(NotAString);
      }
      var it := new Item.Init(fs, datastore, collection, item, ItemView(meta.value, fileType.s));
      r := Ok(it);
    }

    /** `data`: decoded on first access from the file the metadata names,
        then returned from the cache on every later access, whatever the
        disk holds by then. A read that raises is not cached. */
    method Data() returns (r: Result<Option<Frame>>)
      requires Valid()
      modifies this
      ensures old(cache).Some? ==> r == Ok(old(cache).value) && cache == old(cache)
      ensures old(cache).None? ==> r == ReadData(fs.disk, datastore, collection, item, fileType)
      ensures old(cache).None? ==> cache == if r.Ok? then Some(r.value) else None
    {
      if cache.Some? {
        return Ok(cache.value);
      }
      match ReaderFor(fileType) {
        case Some(ParquetReader) =>
          var f := ReadFile(fs.disk, datastore, collection, item, dataPath);
          r := if f.Ok? then Ok(Some(f.value)) else Err(f.error);
        case Some(PickleReader) =>
          var f := ReadFile(fs.disk, datastore, collection, item, dataPath);
          r := if f.Ok? then Ok(Some(f.value)) else Err(f.error);
        case None =>
          r := Ok(None);
      }
      if r.Ok? {
        cache := Some(r.value);
      }
    }
  }
}
