// A collection: the items of one directory <datastore>/<collection>.
// Format selection, listing (plain, filtered by metadata, and of items
// with a metadata.json), and the two ways of storing an item: `write`,
// guarded against overwriting, and `append`, which rewrites the item.
module Collections {
  import opened Values
  import opened Frames
  import opened Disks
  import opened Items

  // ---------------------------------------------------------------------
  // Format selection

  /** The columnar encoder takes only flat numeric tables: a DataFrame with
      a single-level index whose every column passes the numeric test. */
  predicate ColumnarEligible(f: Frame)
  {
    f.kind == DataFrame && f.levels <= 1 && forall i :: 0 <= i < |f.columns| ==> f.columns[i].numeric
  }

  /** `_infer_file_type_from_data`: pickle for a Series, for a multi-level
      index and for any non-numeric column; parquet otherwise. */
  function InferFileType(f: Frame): (r: string)
    ensures r == Parquet || r == Pickle
    ensures r == Parquet <==> ColumnarEligible(f)
  {
    if f.kind == Series then Pickle
    else if f.levels > 1 then Pickle
    else if exists i :: 0 <= i < |f.columns| && !f.columns[i].numeric then Pickle
    else Parquet
  }

  /** Whatever format is selected, an item stored in it has a reader:
      the file type written is one `data` decodes. */
  lemma SelectedFormatIsReadable(f: Frame)
    ensures ReaderFor(InferFileType(f)).Some?
    ensures ReaderFor(InferFileType(f)) == Some(ParquetReader) <==> ColumnarEligible(f)
  {
  }

  // ---------------------------------------------------------------------
  // Listing

  /** An item's metadata as a filter sees it: with `_updated` deleted. */
  function Comparable(meta: Metadata): Metadata
  {
    meta - {UpdatedKey}
  }

  /** Every filter key is in the comparable metadata with a value Python's `==` equates to it. */
  predicate Matches(meta: Metadata, filter: Metadata)
  {
    forall k :: k in filter ==> k in Comparable(meta) && PyEquals(Comparable(meta)[k], filter[k])
  }

  /** A directory a filtered listing can read: it has a metadata.json, and
      that holds the `_updated` key the listing deletes. */
  predicate Filterable(dir: ItemDir)
  {
    dir.meta.Some? && UpdatedKey in dir.meta.value
  }

  /** The filtered listing of the directories `dirs` of a collection. */
  function MatchingItems(coll: CollectionDir, dirs: set<string>, filter: Metadata): set<string>
  {
    set x | x in dirs && x in coll && Filterable(coll[x]) && Matches(coll[x].meta.value, filter)
  }

  /** The filter keys among `keys` whose value the metadata view agrees with. */
  function Agreeing(view: Metadata, filter: Metadata, keys: set<string>): set<string>
  {
    set k | k in keys && k in filter && k in view && PyEquals(view[k], filter[k])
  }

  /** A subset as large as its superset is the whole superset. */
  lemma {:induction false} SubsetOfSameSize(a: set<string>, b: set<string>)
    requires a <= b && |a| == |b|
    ensures a == b
  {
    if a != {} {
      var x :| x in a;
      assert |a - {x}| == |a| - 1 && |b - {x}| == |b| - 1;
      SubsetOfSameSize(a - {x}, b - {x});
      assert a == (a - {x}) + {x} && b == (b - {x}) + {x};
    }
  }

  /** Counting the agreeing filter keys reaches the filter's size exactly
      when every filter key agrees. */
  lemma FullCountIsMatch(view: Metadata, filter: Metadata)
    ensures |Agreeing(view, filter, filter.Keys)| == |filter| <==>
      forall k :: k in filter ==> k in view && PyEquals(view[k], filter[k])
  {
    var agree := Agreeing(view, filter, filter.Keys);
    assert |filter| == |filter.Keys|;
    if |agree| == |filter| {
      SubsetOfSameSize(agree, filter.Keys);
    }
    if forall k :: k in filter ==> k in view && PyEquals(view[k], filter[k]) {
      assert agree == filter.Keys;
    }
  }

  /** `_updated` is deleted before matching, so a filter naming it matches nothing. */
  lemma UpdatedFilterNeverMatches(meta: Metadata, filter: Metadata)
    requires UpdatedKey in filter
    ensures !Matches(meta, filter)
  {
  }

  /** A filter value `True` matches a stored `1`, as Python's `==` has it,
      and a stored `"1"` does not. */
  lemma BoolFilterMatchesOne(stamp: Value)
    ensures Matches(map["k" := Int(1), UpdatedKey := stamp], map["k" := Bool(true)])
    ensures !Matches(map["k" := Str("1"), UpdatedKey := stamp], map["k" := Bool(true)])
  {
    var meta := map["k" := Int(1), UpdatedKey := stamp];
    assert "k" != UpdatedKey;
    assert Comparable(meta)["k"] == Int(1);
    var other := map["k" := Str("1"), UpdatedKey := stamp];
    assert Comparable(other)["k"] == Str("1");
  }

  /** The items with data: the subdirectories that hold a metadata.json. */
  function WithMetadata(coll: CollectionDir, dirs: set<string>): set<string>
  {
    set x | x in dirs && x in coll && coll[x].meta.Some?
  }

  // ---------------------------------------------------------------------
  // Writing and appending, as functions of the disk

  /** `write`: `file_type` is set in the metadata before the guard; an
      existing item directory refuses the write unless `overwrite`; the
      data file and then the stamped metadata replace what was there. */
  function WriteSpec(d: Disk, ds: string, c: string, item: string, data: Frame,
                     metadata: Metadata, overwrite: bool): Step
  {
    var fileType := InferFileType(data);
    var meta := metadata[FileTypeKey := Str(fileType)];
    if HasItemDir(d, ds, c, item) && !overwrite then Step(Fail(ItemExists), d)
    else if !HasCollection(d, ds, c) then Step(Fail(NotFound), d)
    else
      var d1 := WriteDataFile(d, ds, c, item, DataFileName(fileType), data);
      Step(Pass, WriteItemMetadata(d1, ds, c, item, meta))
  }

  /** `append`: opens the item, reads its data, and writes with overwrite
      the stored rows followed by the new ones, under the stored metadata
      updated by the supplied one. */
  function AppendSpec(d: Disk, ds: string, c: string, item: string, data: Frame,
                      metadata: Metadata): Step
  {
    match LoadItem(d, ds, c, item)
    case Err(e) => Step(Fail(e), d)
    case Ok(view) =>
      match ReadData(d, ds, c, item, view.fileType)
      case Err(e) => Step(Fail(e), d)
      case Ok(None) => Step(Fail(NoData), d)
      case Ok(Some(existing)) =>
        WriteSpec(d, ds, c, item, Concat(existing, data), view.metadata + metadata, true)
  }

  /** Writing to an existing item without `overwrite` raises and stores nothing. */
  lemma WriteRefusesExistingItem(d: Disk, ds: string, c: string, item: string, data: Frame,
                                 metadata: Metadata)
    requires HasItemDir(d, ds, c, item)
    ensures WriteSpec(d, ds, c, item, data, metadata, false) == Step(Fail(ItemExists), d)
  {
  }

  /** A write that passes leaves an item that opens with the supplied
      metadata plus its file type and a fresh stamp, and whose data reads
      back as the frame written, whatever the item held before. */
  lemma WriteThenLoad(d: Disk, ds: string, c: string, item: string, data: Frame,
                      metadata: Metadata, overwrite: bool)
    requires WriteSpec(d, ds, c, item, data, metadata, overwrite).outcome == Pass
    ensures var d' := WriteSpec(d, ds, c, item, data, metadata, overwrite).disk;
      var fileType := InferFileType(data);
      && HasItemDir(d', ds, c, item)
      && LoadItem(d', ds, c, item) == Ok(ItemView(Stamped(d, metadata[FileTypeKey := Str(fileType)]), fileType))
      && ReadData(d', ds, c, item, fileType) == Ok(Some(data))
      && d'.clock == d.clock + 1
  {
  }

  /** A write changes the one item directory it names and no other. */
  lemma WriteTouchesOnlyItsItem(d: Disk, ds: string, c: string, item: string, data: Frame,
                                metadata: Metadata, overwrite: bool,
                                ds': string, c': string, i': string)
    requires (ds', c', i') != (ds, c, item)
    ensures var d' := WriteSpec(d, ds, c, item, data, metadata, overwrite).disk;
      Lookup(d', ds', c', i') == Lookup(d, ds', c', i') &&
      (HasCollection(d', ds', c') <==> HasCollection(d, ds', c'))
  {
  }

  /** Appending to an item that does not exist fails when it is opened. */
  lemma AppendToMissingItemFails(d: Disk, ds: string, c: string, item: string, data: Frame,
                                 metadata: Metadata)
    requires !HasItemDir(d, ds, c, item)
    ensures AppendSpec(d, ds, c, item, data, metadata) == Step(Fail(ItemMissing), d)
  {
  }

  /** An append that passes leaves the stored rows followed by the new ones,
      order kept, under the stored metadata with the supplied keys winning
      (then `file_type` for the new whole, and a fresh stamp). */
  lemma AppendConcatenates(d: Disk, ds: string, c: string, item: string, data: Frame,
                           metadata: Metadata)
    requires AppendSpec(d, ds, c, item, data, metadata).outcome == Pass
    ensures LoadItem(d, ds, c, item).Ok?
    ensures var view := LoadItem(d, ds, c, item).value;
      ReadData(d, ds, c, item, view.fileType).Ok? && ReadData(d, ds, c, item, view.fileType).value.Some?
    ensures var view := LoadItem(d, ds, c, item).value;
      var existing := ReadData(d, ds, c, item, view.fileType).value.value;
      var d' := AppendSpec(d, ds, c, item, data, metadata).disk;
      var fileType := InferFileType(Concat(existing, data));
      && LoadItem(d', ds, c, item) == Ok(ItemView(Stamped(d, (view.metadata + metadata)[FileTypeKey := Str(fileType)]), fileType))
      && ReadData(d', ds, c, item, fileType) == Ok(Some(Concat(existing, data)))
      && ReadData(d', ds, c, item, fileType).value.value.rows == existing.rows + data.rows
  {
  }

  // ---------------------------------------------------------------------
  // The collection handle

  class Collection {
    const fs: FileSystem
    const datastore: string
    const collection: string
    const engine: Value

    constructor (collection: string, datastore: string, fs: FileSystem, engine: Value)
      ensures this.collection == collection && this.datastore == datastore
      ensures this.fs == fs && this.engine == engine
    {
      this.collection := collection;
      this.datastore := datastore;
      this.fs := fs;
      this.engine := engine;
    }

    /** `list_items(**filter)`. With no filter, every subdirectory name.
        With one, every subdirectory whose metadata (less `_updated`)
        holds each filter key with an equal value; the listing raises if a
        subdirectory has no metadata.json or no `_updated` in it. */
    method ListItems(filter: Metadata) returns (r: Result<set<string>>)
      ensures Subdirs(fs.disk, datastore, collection).Err? ==> r == Subdirs(fs.disk, datastore, collection)
      ensures filter == map[] ==> r == Subdirs(fs.disk, datastore, collection)
      ensures filter != map[] && Subdirs(fs.disk, datastore, collection).Ok? ==>
        var dirs := Subdirs(fs.disk, datastore, collection).value;
        var coll := CollectionAt(fs.disk, datastore, collection);
        && (r.Ok? <==> forall x :: x in dirs ==> Filterable(coll[x]))
        && (r.Ok? ==> r.value == MatchingItems(coll, dirs, filter))
        && (r.Err? ==> r.error == NoMetadata || r.error == MissingKey(UpdatedKey))
    {
      var listed := Subdirs(fs.disk, datastore, collection);
      if listed.Err? {
        return listed;
      }
      var dirs := listed.value;
      if filter == map[] {
        return Ok(dirs);
      }
      var coll := CollectionAt(fs.disk, datastore, collection);
      var matched: seq<string> := [];
      var todo := dirs;
      while todo != {}
        invariant todo <= dirs
        invariant forall x :: x in dirs - todo ==> Filterable(coll[x])
        invariant forall x :: x in matched <==> x in MatchingItems(coll, dirs - todo, filter)
        decreases todo
      {
        var d :| d in todo;
        todo := todo - {d};
        var meta := coll[d].meta;
        if meta.None? {
          return Err(NoMetadata);
        }
        if UpdatedKey !in meta.value {
          return Err(MissingKey(UpdatedKey));
        }
        var view := meta.value - {UpdatedKey};
        var m := 0;
        var pending := filter.Keys;
        while pending != {}
          invariant pending <= filter.Keys
          invariant m == |Agreeing(view, filter, filter.Keys - pending)|
          decreases pending
        {
          var k :| k in pending;
          ghost var before := Agreeing(view, filter, filter.Keys - pending);
          pending := pending - {k};
          if k in view && PyEquals(view[k], filter[k]) {
            assert Agreeing(view, filter, filter.Keys - pending) == before + {k};
            m := m + 1;
          } else {
            assert Agreeing(view, filter, filter.Keys - pending) == before;
          }
        }
        assert filter.Keys - pending == filter.Keys;
        FullCountIsMatch(view, filter);
        if m == |filter| {
          matched := matched + [d];
        }
      }
      assert dirs - todo == dirs;
      r := Ok(set x | x in matched);
    }

    /** `list_items_with_data`: the subdirectories holding a metadata.json.
        Listing a missing collection raises before the `try`, so the
        `None` of the handler is never returned. */
    method ListItemsWithData() returns (r: Result<set<string>>)
      ensures r.Ok? <==> HasCollection(fs.disk, datastore, collection)
      ensures r.Ok? ==> forall x :: x in r.value <==>
        x in Subdirs(fs.disk, datastore, collection).value &&
        CollectionAt(fs.disk, datastore, collection)[x].meta.Some?
    {
      var listed := Subdirs(fs.disk, datastore, collection);
      if listed.Err? {
        return listed;
      }
      r := Ok(WithMetadata(CollectionAt(fs.disk, datastore, collection), listed.value));
    }

    /** `item(name)`: an Item handle, or the error opening it raises. */
    method GetItem(name: string) returns (r: Result<Item>)
      ensures LoadItem(fs.disk, datastore, collection, name).Err? ==>
        r == Err(LoadItem(fs.disk, datastore, collection, name).error)
      ensures LoadItem(fs.disk, datastore, collection, name).Ok? ==>
        r.Ok? && fresh(r.value) && r.value.Valid() && r.value.cache == None &&
        r.value.fs == fs && r.value.datastore == datastore &&
        r.value.collection == collection && r.value.item == name &&
        ItemView(r.value.metadata, r.value.fileType) == LoadItem(fs.disk, datastore, collection, name).value
    {
      r := Item.Open(fs, datastore, collection, name);
    }

    /** `write(item, data, metadata, overwrite)`. The caller's dict, when it
        is not empty, gains `file_type` in place, even when the write then
        raises; an empty or absent one is replaced by a fresh dict. */
    method Write(item: string, data: Frame, metadata: MetaDict?, overwrite: bool) returns (r: Outcome)
      modifies fs, metadata
      ensures var s := WriteSpec(old(fs.disk), datastore, collection, item, data, old(Given(metadata)), overwrite);
        r == s.outcome && fs.disk == s.disk
      ensures old(Truthy(metadata)) ==>
        metadata.entries == old(metadata.entries)[FileTypeKey := Str(InferFileType(data))]
      ensures !old(Truthy(metadata)) && metadata != null ==> metadata.entries == old(metadata.entries)
    {
      var meta: MetaDict;
      if Truthy(metadata) {
        meta := metadata;
      } else {
        meta := new MetaDict(map[]);
      }
      var fileType := InferFileType(data);
      meta.Set(FileTypeKey, Str(fileType));
      if HasItemDir(fs.disk, datastore, collection, item) && !overwrite {
        return Fail(ItemExists);
      }
      var dataPath := DataFileName(fileType);
      if !HasCollection(fs.disk, datastore, collection) {
        // the codec cannot create <datastore>/<collection>/<item>
        return Fail(NotFound);
      }
      // to_parquet or to_pickle by file type: both store the frame as it is
      fs.disk := WriteDataFile(fs.disk, datastore, collection, item, dataPath, data);
      fs.disk := WriteItemMetadata(fs.disk, datastore, collection, item, meta.entries);
      r := Pass;
    }

    /** `append(item, data, metadata)`: a rewrite of the whole item; the
        caller's dict is read, not changed. */
    method Append(item: string, data: Frame, metadata: MetaDict?) returns (r: Outcome)
      modifies fs
      ensures var s := AppendSpec(old(fs.disk), datastore, collection, item, data, old(Given(metadata)));
        r == s.outcome && fs.disk == s.disk
    {
      var given: Metadata := if Truthy(metadata) then metadata.entries else map[];
      var handle := GetItem(item);
      if handle.Err? {
        return Fail(handle.error);
      }
      var existing := handle.value;
      var stored := existing.Data();
      if stored.Err? {
        return Fail(stored.error);
      }
      if stored.value.None? {
        return Fail(NoData);
      }
      var merged := new MetaDict(existing.metadata + given);
      r := Write(item, Concat(stored.value.value, data), merged, true);
    }
  }
}
