# pystore core, modelled in Dafny

pystore is a flat-file store for time-series tables. A datastore is a
directory holding a `metadata.json` (the encoder engine) and collections.
A collection is a directory of items. An item is a directory holding one
dataset file (`data.parquet` or `data.pickle`) and a `metadata.json`.

This project models the decision logic above the filesystem:

- **Collection**: choosing the file format, listing items (with and
  without a metadata filter), the overwrite guard of `write`, and the
  rewrite-based `append`.
- **Item**: the existence check, loading the metadata, choosing the
  decoder, and the memoised `data`.
- **Store**: choosing and persisting the engine, creating, overwriting
  and deleting collections, and the cached collection list.
- **Client**: the watermark state machine. `write` writes an absent item
  whole. For a present item it appends only the rows after the
  `end_timestamp` watermark, so repeating a delivery stores nothing.

The model has two layers.

1. **Functions of the disk.** A `Disks.Disk` value holds datastores,
   collections and item directories. Each item directory has optional
   metadata and a map from file names to frames. The disk also holds a
   clock that supplies the `_updated` stamp. `WriteSpec`, `AppendSpec`,
   `LoadItem`, `CreateCollectionSpec`, `ClientWriteSpec` and the others
   say what each operation returns and what the disk becomes. The lemmas
   are stated about these functions.
2. **Classes with the source's fields.** `Item` (with its `cache` cell),
   `Collection`, `PyStore` (with its cached `collections`), and
   `PyStoreClient` all work on a shared `FileSystem` object. The caller's
   metadata dict is a `MetaDict` object; `null` stands for `None`. Each
   method's `ensures` ties the new disk to the function above. It also
   states how the caller's dict changes in place.

Errors are values. `Result` and `Outcome` carry an `Error` that names the
cause: an existing item or collection, a missing item, a missing file or
directory, missing metadata, a missing key, and so on.

Frames are reduced to what the store decides on:

- whether the dataset is a Series or a DataFrame;
- the number of index levels;
- for each column, the outcome of the store's dtype test (`type(t) in Numeric`);
- the rows, each with an index key (one integer timestamp per level) and
  cells.

Timestamps are integers in units of the time resolution, so
`TimeResolution` is 1.

### Behaviour of the code worth knowing

- **End timestamp.** `_get_end_timestamp` takes the last index entry,
  not the largest. For a multi-level index it takes the largest component
  of the last entry. Rows that arrive out of order therefore leave the
  watermark below the data's latest time; `Clients.WatermarkIsLastNotLargest`
  gives such an input.
- **`always_overwrite`.** `_write` never passes `overwrite=True` to
  `Collection.write`, so `always_overwrite` on an existing item raises
  (`Clients.AlwaysOverwriteOnExistingItemRaises`). It also skips the item
  listing, so the caller's dict gains the watermark and the file type
  even when the collection is gone (`Clients.AlwaysOverwriteDoesNotList`).
- **Unknown file type.** `Item.data` builds a `ValueError` without
  raising it, so `data` is `None` and stays cached. Appending to such an
  item then fails on `None.append`, modelled as `NoData`.
- **Names that collide.** The listings leave out `_snapshots`. A
  collection of that name is therefore never in the cached list, and
  asking for it again tries to create it. A collection named
  `metadata.json` collides with the datastore's metadata file: creating
  it raises, and deleting it raises too (`Stores.StoreMetadataFileIsNoCollection`).
  Other names that resolve to another directory are not modelled; see
  "Left out".
- **A new row one step after the watermark can be lost.** `_append`
  writes only when the incoming end is greater than the watermark plus
  `TIME_RESOLUTION` (pystore/client.py:79). Yet its window starts at
  watermark plus resolution inclusive (pystore/client.py:80-82). So a
  batch whose only new row lies exactly one step after the watermark
  stores nothing, while the same row followed by a later one is stored
  (`Clients.LoneNextMinuteIsDropped`, `Clients.NextMinuteKeptWithALaterOne`).
  The "no dropped row" lemmas hold only when the incoming end passes
  watermark plus resolution.
- **Stored metadata is never the caller's.** Every write stamps
  `_updated`, and the client also adds `end_timestamp` and `file_type`
  (`Clients.WriteThenReadReturnsData`). So the item's metadata never
  equals the dict the caller passed, and never equals `None`. The test's
  check `written_data.metadata == metadata` at
  pystore/tests/test_client.py:74 therefore cannot hold, in particular
  with `metadata=None` (pystore/tests/test_client.py:37).

## Model

| member | source | states |
|---|---|---|
| Frames.MaxOf | pystore/client.py:95 | `max` of a non-empty tuple is one of its entries and no entry exceeds it |
| Items.OpenChecksDirectory | pystore/item.py:49-57 | opening fails with the missing-item error exactly when the item directory is absent; a directory without metadata.json passes that check and fails on the read |
| Items.OpenRecordsFileType | pystore/item.py:57-61 | an opened item's metadata is the stored one and its file type is the string stored under `file_type` |
| Items.ReadDispatchesOnFileType | pystore/item.py:59-73 | parquet and pickle read the file `data.<file_type>`, failing if it is missing; any other type reads as None whatever the directory holds |
| Items.Item.Open | pystore/item.py:25-61 | the constructor raises for a missing directory, missing metadata, a missing or non-string `file_type`; otherwise it records the stored metadata and file type and leaves the data unread |
| Items.Item.Data | pystore/item.py:63-73 | the first access returns the decode of the data file (None for an unknown type) and caches it; later accesses return the cached value whatever the disk holds |
| Collections.InferFileType | pystore/collection.py:137-150 | the result is parquet or pickle, and parquet exactly for a DataFrame with one index level whose every column passes the dtype test `type(t) in Numeric` |
| Collections.SelectedFormatIsReadable | pystore/collection.py:137-150 | every selected format has a reader in `Item.data`, the parquet reader exactly for columnar-eligible data |
| Collections.SubsetOfSameSize | pystore/collection.py:61-67 | a subset of the filter keys as large as the filter is all of it (the basis of the `m == len(kwargs)` test) |
| Collections.FullCountIsMatch | pystore/collection.py:61-67 | counting agreeing filter keys reaches `len(kwargs)` exactly when every filter key is present with a value Python's `==` equates to it |
| Collections.BoolFilterMatchesOne | pystore/collection.py:64 | a filter value `True` matches a stored `1` and not a stored `"1"`, as Python's `==` decides |
| Collections.UpdatedFilterNeverMatches | pystore/collection.py:59-64 | `_updated` is deleted before matching, so a filter naming it matches no item |
| Collections.Collection.ListItems | pystore/collection.py:49-70 | with no filter, exactly the subdirectories; with one, exactly the subdirectories whose metadata less `_updated` agrees (by Python's `==`, so `True` equals `1`) on every filter key; fails when a subdirectory lacks metadata or `_updated` |
| Collections.Collection.ListItemsWithData | pystore/collection.py:72-85 | exactly the subdirectories holding a metadata.json; a missing collection raises, so the `None` branch is never taken |
| Collections.Collection.GetItem | pystore/collection.py:87-91 | the item handle, or the error its constructor raises |
| Collections.WriteRefusesExistingItem | pystore/collection.py:104-110 | writing over an existing item without `overwrite` raises and leaves the disk unchanged |
| Collections.WriteThenLoad | pystore/collection.py:101-122 | after a write the item opens with the supplied metadata plus `file_type` and a fresh stamp, and reads back as the frame written, whatever it held before |
| Collections.WriteTouchesOnlyItsItem | pystore/collection.py:104-122 | a write changes no other item directory and no collection's existence |
| Collections.Collection.Write | pystore/collection.py:93-122 | the disk becomes the write's result; the caller's non-empty dict gains `file_type` even when the write then raises; an empty or absent one is untouched |
| Collections.AppendToMissingItemFails | pystore/collection.py:128-129 | appending to a missing item fails when it is opened and stores nothing |
| Collections.AppendConcatenates | pystore/collection.py:124-135 | after an append the item holds the stored rows followed by the new ones, unsorted and not deduplicated, under the stored metadata with the supplied keys winning |
| Collections.Collection.Append | pystore/collection.py:124-135 | the disk becomes the append's result, a rewrite with `overwrite=True`; the caller's dict is not changed |
| Stores.NewStoreRecordsDefaultEngine | pystore/store.py:54-61 | a new datastore records `{"engine": "fastparquet"}`, uses that engine, and has no collections |
| Stores.ExistingStoreKeepsItsEngine | pystore/store.py:62-65 | an existing datastore is left as it is and its engine is the one its metadata records; missing metadata or key fails |
| Stores.ReopenFindsSameEngine | pystore/store.py:54-65 | opening a datastore again settles on the same engine and changes nothing |
| Stores.PyStore.Open | pystore/store.py:40-67 | the store's engine and disk are as opening settles them, and its cached collection list is the datastore's subdirectories |
| Stores.PyStore.ListCollections | pystore/store.py:98-102 | exactly the datastore's subdirectories other than `_snapshots` |
| Stores.SnapshotsIsNeverListed | pystore/store.py:98-102 | the collection listing never holds `_snapshots` |
| Stores.CreateRefusesExistingCollection | pystore/store.py:75-81 | creating an existing collection without `overwrite` raises and changes nothing |
| Stores.StoreMetadataFileIsNoCollection | pystore/store.py:74-93 | a collection named `metadata.json` cannot be created (the path exists, or removing it with `overwrite` fails on a file) or deleted, and the disk is unchanged |
| Stores.CreatedCollectionIsEmpty | pystore/store.py:74-86 | a created collection, even one that replaced another with its items, holds only `_snapshots`; other collections are unchanged and the datastore lists it (unless it is named `_snapshots`) |
| Stores.PyStore.CreateCollection | pystore/store.py:69-87 | the disk becomes the creation's result, the cache is refreshed to the datastore's subdirectories, and the handle has the default engine |
| Stores.DeleteRemovesCollection | pystore/store.py:89-96 | deleting removes the collection and its items and leaves the others; a missing collection, or the datastore's metadata file, raises and changes nothing |
| Stores.PyStore.DeleteCollection | pystore/store.py:89-96 | the disk becomes the deletion's result, returns True and refreshes the cache |
| Stores.PyStore.GetCollection | pystore/store.py:104-113 | a name in the cached list without `overwrite` gives a handle and touches nothing, even if the directory is gone; otherwise the collection is created and the cache refreshed to the datastore's listing; a failure leaves the cache as it was; the handle carries the store's engine |
| Clients.EndTimestamp | pystore/client.py:90-95 | empty data has no end; for one index level the last row's timestamp, otherwise the largest component of the last key |
| Clients.InRangeSelects | pystore/client.py:80-86 | the time range keeps exactly the given rows whose time lies in [start, end) |
| Clients.InRangeOfConcat | pystore/client.py:80-86 | cutting a concatenation cuts each part, so the range keeps row order |
| Clients.InRangeKeepsAllInside | pystore/client.py:80-86 | rows all inside the range are all kept |
| Clients.InRangeDropsAllOutside | pystore/client.py:80-86 | rows all outside the range are all dropped |
| Clients.AlwaysOverwriteOnExistingItemRaises | pystore/client.py:53-65 | `always_overwrite` on an existing item raises the item-exists error and stores nothing |
| Clients.AlwaysOverwriteDoesNotList | pystore/client.py:53-65 | with `always_overwrite` the collection is not listed: a missing collection fails in `Collection.write`, after the caller's dict has gained the watermark and the file type, and no other key changed |
| Clients.EmptyDataHasNoWatermark | pystore/client.py:58-65 | on the whole-item path an empty frame raises for its missing last index entry, stores nothing and leaves the caller's dict as it was |
| Clients.AppendPathIgnoresCallerMetadata | pystore/client.py:53-56 | on the append path the caller's metadata has no effect |
| Clients.CoveredWriteIsNoOp | pystore/client.py:72-79 | data ending no later than watermark plus resolution leaves the disk, including `_updated`, unchanged |
| Clients.NovelWriteAppendsOnlyNewRows | pystore/client.py:72-88 | when the incoming end passes watermark plus resolution, the item holds its old rows followed by the incoming rows in [watermark + resolution, end + resolution), and its metadata is the stored metadata with the watermark moved to the incoming end, then `file_type` and a fresh stamp |
| Clients.AppendedRowsAreNovel | pystore/client.py:75-86 | when the incoming end passes watermark plus resolution, the appended rows all lie after the watermark and no later than the incoming end, and include the incoming last row |
| Clients.NovelSuffixIsExactlyAppended | pystore/client.py:75-86 | when the incoming end passes watermark plus resolution, incoming rows made of covered ones then new ones append exactly the new ones, with no duplicate and no dropped row |
| Clients.WriteThenReadReturnsData | pystore/tests/test_client.py:67-73 | a passing write on the whole-item path reads back as the data written, under the caller's metadata plus watermark, file type and stamp |
| Clients.RepeatedWriteIsNoOp | pystore/client.py:53-88 | for any item name other than `_snapshots`, repeating a successful write without `always_overwrite` changes nothing |
| Clients.WatermarkIsLastNotLargest | pystore/client.py:95 | for rows at 5 then 3 the end timestamp is 3 |
| Clients.FirstWriteStoresBatch | pystore/client.py:53-65 | the first write of three hourly points to an absent item stores them with watermark 08:00 |
| Clients.SecondWriteAppendsBatch | pystore/client.py:67-88 | the next write of 09:00 and 10:00 appends both and moves the watermark to 10:00 |
| Clients.ThirdWriteIsNoOp | pystore/client.py:72-79 | a following write at 07:59 changes nothing |
| Clients.HourlyIngestionScenario | pystore/client.py:41-88 | the three writes leave the five points in order under watermark 10:00 |
| Clients.LoneNextMinuteIsDropped | pystore/client.py:75-79 | under watermark 10:00 a lone new point at 10:01 is not greater than watermark plus resolution, so nothing is written and the point is lost |
| Clients.NextMinuteKeptWithALaterOne | pystore/client.py:75-88 | the same 10:01 point followed by one at 10:02 passes the test, and both are appended after the stored rows |
| Clients.PyStoreClient.Open | pystore/client.py:26-32 | the client's collection is the store's `collection(version)`: a cached name leaves the disk and the store's cache as they were; otherwise the collection is created, the cache refreshed to the datastore's listing, and a failure raises the creation's error with the cache kept |
| Clients.PyStoreClient.Read | pystore/client.py:34-39 | the item handle of the client's collection, or the error opening it raises |
| Clients.PyStoreClient.Write | pystore/client.py:41-56 | the whole-item path when `always_overwrite` (without listing the collection) or the name is not listed, the watermark path otherwise; the caller's non-empty dict gains `end_timestamp` and `file_type` on the first path |
| Clients.PyStoreClient.WriteWithWatermark | pystore/client.py:58-65 | the end timestamp goes into the metadata, then a write without `overwrite` |
| Clients.PyStoreClient.AppendAfterWatermark | pystore/client.py:67-88 | nothing is written unless the incoming end passes watermark plus resolution; otherwise the in-range rows are appended under the stored metadata with the new watermark |

## Left out

- Parquet and pickle encoding: the codecs are taken to store and return a frame exactly. Compression, the engine argument and dtype promotion on append are not modelled.
- The `utils` helpers are not part of this model. `subdirs` is taken to list subdirectories other than `_snapshots`. Reading a missing metadata.json is taken to give `None`. `write_metadata` is taken to store the dict with an `_updated` stamp drawn from the disk clock.
- Stores.CreateCollectionSpec, Items.LoadItem, Collections.WriteSpec: names are taken to be single path components. The empty name, `.`, `..` and names holding `/` resolve to other directories in the source, for example the datastore or the collection itself, and are not modelled. For them the model creates or looks up an entry of that name instead. `Stores.CreatedCollectionIsEmpty` and `Collections.WriteThenLoad` are stated for every name, so they say nothing about the source for such names.
- Frames.Concat: appended data is taken to have the stored frame's kind, index levels and columns, so an append keeps the stored file type. pandas' `append` aligns columns instead: a new column is added and filled with NaN, which can switch the file type to pickle. `Collections.AppendConcatenates` states the file type from the stored shape.
- Collections.Collection.ListItems: metadata values are strings, integers, booleans, null and timestamps. Floats, lists and nested mappings are not modelled, so Python's `1 == 1.0` and comparisons of nested values are not captured.
- Collections.Collection.ListItemsWithData: `subdirs` is taken to list eagerly, so a missing collection raises before the `try` and the `None` branch is never taken. If `subdirs` were lazy, the method would return `None` instead.
- Disks.WriteDataFile: the helpers are taken to create a missing item directory when the data file is written, as the round trip at pystore/tests/test_client.py:67-73 needs. A missing collection directory is not created, and the write fails.
- Collections.Collection.Write: any in-place addition of `_updated` to the caller's dict by `write_metadata` is not modelled, because that helper is not part of this model.
- The dtype test at pystore/collection.py:147 looks up `type(t)`, the class of each column's dtype, in a list of dtype instances (float32, float64, int64). Whether a class equals one of those instances is decided by numpy's dtype equality. The outcome need not agree with whether the column is numeric: if it never holds, parquet is chosen only for a DataFrame with no columns. Each column therefore carries the outcome of `type(t) in Numeric` as a flag, not its numeric-ness.
- Clients.Window: `TimeRange.view` is not part of this model. It is taken to keep the rows whose time lies in [start, end), with a row's time being its key under one index level and its largest component otherwise.
- Clients.AppendedRowsAreNovel and Clients.NovelSuffixIsExactlyAppended: timestamps are counted in units of `TIME_RESOLUTION`, so `TimeResolution` is 1 and no time lies strictly between the watermark and the watermark plus the resolution. With a coarser resolution and finer timestamps, the code drops rows in that gap. These two lemmas do not cover that case.
- Clients.EndTimestamp: the watermark is stored as a timestamp value and read back unchanged. The string round trip `TS(str(t)) == t` is assumed.
- Creating the root directory (pystore/store.py:48-50), `set_path` and the `store` factory are not modelled. The client opens on a store that is already open, and the store is keyed by its datastore name.
- `PyStore.item` is not modelled: it is `collection(name).item(item)`, both of which are modelled.
- The kedro `Node` argument of `read` is not modelled, because it is a foreign type. Names are strings.
- The item's `__repr__` methods, pystore/__init__.py and pystore/tests/utils.py are not modelled; they carry no store logic.
- Filesystem failures (permissions, disk full) are not modelled, nor is a crash between writing the data file and the metadata file.
- Concurrent writers are not modelled. The model is single-threaded.
