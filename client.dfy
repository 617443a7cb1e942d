// The client: one `write` entry point that writes an absent item whole, and
// appends to a present one only the rows after the watermark recorded in
// its metadata under `end_timestamp`, so that writing the same rows again
// stores nothing.
module Clients {
  import opened Values
  import opened Frames
  import opened Disks
  import opened Items
  import opened Collections
  import opened Stores

  /** The smallest time increment; timestamps are counted in it. */
  const TimeResolution: int := 1

  // ---------------------------------------------------------------------
  // End timestamp and time ranges

  /** The last row, in index order as stored. */
  function LastRow(f: Frame): Row
    requires f.rows != []
  {
    f.rows[|f.rows| - 1]
  }

  /** `_get_end_timestamp`: the last index entry, which need not be the
      largest; under a multi-level index, the largest component of the last
      entry. An empty frame has no last entry. */
  function EndTimestamp(f: Frame): (r: Result<int>)
    requires f.WellFormed()
    ensures r.Err? <==> f.rows == []
    ensures r.Err? ==> r.error == EmptyIndex
    ensures r.Ok? && f.levels == 1 ==> r.value == LastRow(f).key[0]
    ensures r.Ok? ==> r.value in LastRow(f).key
    ensures r.Ok? ==> forall t :: t in LastRow(f).key ==> t <= r.value
  {
    if f.rows == [] then Err(EmptyIndex)
    else Ok(RowTime(LastRow(f), f.levels))
  }

  /** Every row has a key to take a time from. */
  predicate Keyed(rows: seq<Row>)
  {
    forall i :: 0 <= i < |rows| ==> |rows[i].key| >= 1
  }

  /** The rows whose time lies in [start, end), in their order. */
  function InRange(rows: seq<Row>, levels: nat, start: int, end: int): (kept: seq<Row>)
    requires Keyed(rows)
    ensures |kept| <= |rows|
  {
    if rows == [] then []
    else
      var rest := InRange(rows[1..], levels, start, end);
      if start <= RowTime(rows[0], levels) < end then [rows[0]] + rest else rest
  }

  /** A row is kept exactly when it is one of the given rows and its time
      lies in [start, end). */
  lemma {:induction false} InRangeSelects(rows: seq<Row>, levels: nat, start: int, end: int)
    requires Keyed(rows)
    ensures forall r :: r in InRange(rows, levels, start, end) <==>
      r in rows && |r.key| >= 1 && start <= RowTime(r, levels) < end
  {
    if rows != [] {
      InRangeSelects(rows[1..], levels, start, end);
      assert forall r :: r in rows <==> r == rows[0] || r in rows[1..];
    }
  }

  /** `data.pipe(TimeRange(start, end).view)`: the frame cut to the rows
      in [start, end); its shape is kept. */
  function Window(f: Frame, start: int, end: int): (w: Frame)
    requires f.WellFormed()
  {
    f.(rows := InRange(f.rows, f.levels, start, end))
  }

  /** Cutting a concatenation cuts each part: the window keeps row order. */
  lemma {:induction false} InRangeOfConcat(a: seq<Row>, b: seq<Row>, levels: nat, start: int, end: int)
    requires Keyed(a) && Keyed(b)
    ensures Keyed(a + b)
    ensures InRange(a + b, levels, start, end) == InRange(a, levels, start, end) + InRange(b, levels, start, end)
  {
    assert Keyed(a + b) by {
      forall i | 0 <= i < |a + b| ensures |(a + b)[i].key| >= 1 {
        if i < |a| { assert (a + b)[i] == a[i]; } else { assert (a + b)[i] == b[i - |a|]; }
      }
    }
    if a != [] {
      assert (a + b)[1..] == a[1..] + b;
      assert (a + b)[0] == a[0];
      InRangeOfConcat(a[1..], b, levels, start, end);
    } else {
      assert a + b == b;
    }
  }

  /** Rows all inside the range are all kept. */
  lemma {:induction false} InRangeKeepsAllInside(rows: seq<Row>, levels: nat, start: int, end: int)
    requires Keyed(rows)
    requires forall i :: 0 <= i < |rows| ==> start <= RowTime(rows[i], levels) < end
    ensures InRange(rows, levels, start, end) == rows
  {
    if rows != [] {
      assert forall i :: 0 <= i < |rows[1..]| ==> rows[1..][i] == rows[i + 1];
      InRangeKeepsAllInside(rows[1..], levels, start, end);
    }
  }

  /** Rows all outside the range are all dropped. */
  lemma {:induction false} InRangeDropsAllOutside(rows: seq<Row>, levels: nat, start: int, end: int)
    requires Keyed(rows)
    requires forall i :: 0 <= i < |rows| ==> !(start <= RowTime(rows[i], levels) < end)
    ensures InRange(rows, levels, start, end) == []
  {
    if rows != [] {
      assert forall i :: 0 <= i < |rows[1..]| ==> rows[1..][i] == rows[i + 1];
      InRangeDropsAllOutside(rows[1..], levels, start, end);
    }
  }

  // ---------------------------------------------------------------------
  // The client's operations, as functions of the disk

  /** `_write`: the end timestamp becomes the watermark, and the item is
      written without `overwrite`. */
  function WriteWithWatermarkSpec(d: Disk, ds: string, c: string, name: string, data: Frame,
                                  metadata: Metadata): Step
    requires data.WellFormed()
  {
    match EndTimestamp(data)
    case Err(e) => Step(Fail(e), d)
    case Ok(end) => WriteSpec(d, ds, c, name, data, metadata[EndTimestampKey := Time(end)], false)
  }

  /** `_append`: nothing at all unless the incoming end timestamp passes
      the stored one plus the resolution; otherwise the rows from there up
      to the incoming end are appended, under the stored metadata with
      the new watermark. */
  function AppendAfterWatermarkSpec(d: Disk, ds: string, c: string, name: string, data: Frame): Step
    requires data.WellFormed()
  {
    match LoadItem(d, ds, c, name)
    case Err(e) => Step(Fail(e), d)
    case Ok(view) =>
      if EndTimestampKey !in view.metadata then Step(Fail(MissingKey(EndTimestampKey)), d)
      else if !view.metadata[EndTimestampKey].Time? then Step(Fail(BadTimestamp), d)
      else
        var existingEnd := view.metadata[EndTimestampKey].t + TimeResolution;
        match EndTimestamp(data)
        case Err(e) => Step(Fail(e), d)
        case Ok(newEnd) =>
          if newEnd > existingEnd then
            AppendSpec(d, ds, c, name, Window(data, existingEnd, newEnd + TimeResolution),
                       view.metadata[EndTimestampKey := Time(newEnd)])
          else Step(Pass, d)
  }

  /** `write`: the whole-item path when `always_overwrite` (without
      listing the collection) or when the name is not listed, the watermark
      path otherwise. */
  function ClientWriteSpec(d: Disk, ds: string, c: string, name: string, data: Frame,
                           metadata: Metadata, alwaysOverwrite: bool): Step
    requires data.WellFormed()
  {
    if alwaysOverwrite then WriteWithWatermarkSpec(d, ds, c, name, data, metadata)
    else match Subdirs(d, ds, c)
      case Err(e) => Step(Fail(e), d)
      case Ok(names) =>
        if name !in names then WriteWithWatermarkSpec(d, ds, c, name, data, metadata)
        else AppendAfterWatermarkSpec(d, ds, c, name, data)
  }

  /** `write` takes the whole-item path. */
  predicate WholeItemPath(d: Disk, ds: string, c: string, name: string, alwaysOverwrite: bool)
  {
    alwaysOverwrite || (Subdirs(d, ds, c).Ok? && name !in Subdirs(d, ds, c).value)
  }

  /** The caller's (non-empty) metadata dict after `write`: on the
      whole-item path it gains the watermark and then the file type, even
      when the write then raises. */
  function CallerMetadataAfter(d: Disk, ds: string, c: string, name: string, data: Frame,
                               metadata: Metadata, alwaysOverwrite: bool): Metadata
    requires data.WellFormed()
  {
    if WholeItemPath(d, ds, c, name, alwaysOverwrite) && EndTimestamp(data).Ok? then
      metadata[EndTimestampKey := Time(EndTimestamp(data).value)][FileTypeKey := Str(InferFileType(data))]
    else metadata
  }

  // ---------------------------------------------------------------------
  // Properties of the watermark state machine

  /** `_write` never passes `overwrite`, so `always_overwrite` on an item
      that exists raises instead of overwriting it, and stores nothing. */
  lemma AlwaysOverwriteOnExistingItemRaises(d: Disk, ds: string, c: string, name: string,
                                            data: Frame, metadata: Metadata)
    requires data.WellFormed() && data.rows != []
    requires HasItemDir(d, ds, c, name)
    ensures ClientWriteSpec(d, ds, c, name, data, metadata, true) == Step(Fail(ItemExists), d)
  {
  }

  /** `always_overwrite` short-circuits the listing: with the collection
      gone, the write fails only in `Collection.write`, after the caller's
      dict has gained the watermark and the file type. */
  lemma AlwaysOverwriteDoesNotList(d: Disk, ds: string, c: string, name: string,
                                   data: Frame, metadata: Metadata)
    requires data.WellFormed() && data.rows != []
    requires !HasCollection(d, ds, c)
    ensures ClientWriteSpec(d, ds, c, name, data, metadata, true) == Step(Fail(NotFound), d)
    ensures var after := CallerMetadataAfter(d, ds, c, name, data, metadata, true);
      && EndTimestampKey in after && after[EndTimestampKey] == Time(EndTimestamp(data).value)
      && FileTypeKey in after && after[FileTypeKey] == Str(InferFileType(data))
      && after.Keys == metadata.Keys + {EndTimestampKey, FileTypeKey}
      && forall k :: k in metadata && k != EndTimestampKey && k != FileTypeKey ==> after[k] == metadata[k]
  {
  }

  /** On the whole-item path an empty frame has no end timestamp, so the
      write raises that error whatever the disk holds, and stores nothing. */
  lemma EmptyDataHasNoWatermark(d: Disk, ds: string, c: string, name: string,
                                data: Frame, metadata: Metadata, alwaysOverwrite: bool)
    requires data.WellFormed() && data.rows == []
    requires WholeItemPath(d, ds, c, name, alwaysOverwrite)
    ensures ClientWriteSpec(d, ds, c, name, data, metadata, alwaysOverwrite) == Step(Fail(EmptyIndex), d)
    ensures CallerMetadataAfter(d, ds, c, name, data, metadata, alwaysOverwrite) == metadata
  {
  }

  /** On the watermark path the caller's metadata is discarded: the
      outcome is the same whatever metadata is passed. */
  lemma AppendPathIgnoresCallerMetadata(d: Disk, ds: string, c: string, name: string,
                                        data: Frame, m1: Metadata, m2: Metadata)
    requires data.WellFormed()
    requires Subdirs(d, ds, c).Ok? && name in Subdirs(d, ds, c).value
    ensures ClientWriteSpec(d, ds, c, name, data, m1, false) == ClientWriteSpec(d, ds, c, name, data, m2, false)
  {
  }

  /** Incoming data that ends no later than the watermark plus the
      resolution changes nothing: neither data nor metadata (not even the
      `_updated` stamp) is written. */
  lemma CoveredWriteIsNoOp(d: Disk, ds: string, c: string, name: string, data: Frame,
                           metadata: Metadata, watermark: int)
    requires data.WellFormed() && data.rows != []
    requires Subdirs(d, ds, c).Ok? && name in Subdirs(d, ds, c).value
    requires LoadItem(d, ds, c, name).Ok?
    requires var meta := LoadItem(d, ds, c, name).value.metadata;
      EndTimestampKey in meta && meta[EndTimestampKey] == Time(watermark)
    requires EndTimestamp(data).value <= watermark + TimeResolution
    ensures ClientWriteSpec(d, ds, c, name, data, metadata, false) == Step(Pass, d)
  {
  }

  /** Incoming data that ends after the watermark plus the resolution is
      appended only from there on: the item then holds its old rows followed
      by the incoming rows in [watermark + resolution, end + resolution),
      and the watermark moves to the incoming end. */
  lemma NovelWriteAppendsOnlyNewRows(d: Disk, ds: string, c: string, name: string, data: Frame,
                                     metadata: Metadata, watermark: int)
    requires data.WellFormed() && data.rows != []
    requires Subdirs(d, ds, c).Ok? && name in Subdirs(d, ds, c).value
    requires LoadItem(d, ds, c, name).Ok?
    requires var meta := LoadItem(d, ds, c, name).value.metadata;
      EndTimestampKey in meta && meta[EndTimestampKey] == Time(watermark)
    requires EndTimestamp(data).value > watermark + TimeResolution
    requires ClientWriteSpec(d, ds, c, name, data, metadata, false).outcome == Pass
    ensures var view := LoadItem(d, ds, c, name).value;
      ReadData(d, ds, c, name, view.fileType).Ok? && ReadData(d, ds, c, name, view.fileType).value.Some?
    ensures var view := LoadItem(d, ds, c, name).value;
      var existing := ReadData(d, ds, c, name, view.fileType).value.value;
      var end := EndTimestamp(data).value;
      var d' := ClientWriteSpec(d, ds, c, name, data, metadata, false).disk;
      var appended := Concat(existing, Window(data, watermark + TimeResolution, end + TimeResolution));
      && LoadItem(d', ds, c, name).Ok?
      && LoadItem(d', ds, c, name).value.metadata ==
           Stamped(d, view.metadata[EndTimestampKey := Time(end)][FileTypeKey := Str(InferFileType(appended))])
      && LoadItem(d', ds, c, name).value.metadata[EndTimestampKey] == Time(end)
      && ReadData(d', ds, c, name, LoadItem(d', ds, c, name).value.fileType) == Ok(Some(appended))
  {
    var view := LoadItem(d, ds, c, name).value;
    var end := EndTimestamp(data).value;
    var newMeta := view.metadata[EndTimestampKey := Time(end)];
    assert view.metadata + newMeta == newMeta;
  }

  /** What the watermark path appends holds only rows after the watermark,
      none after the incoming end, and always the incoming last row. */
  lemma AppendedRowsAreNovel(data: Frame, watermark: int)
    requires data.WellFormed() && data.rows != []
    requires EndTimestamp(data).value > watermark + TimeResolution
    ensures var end := EndTimestamp(data).value;
      var slice := Window(data, watermark + TimeResolution, end + TimeResolution);
      && LastRow(data) in slice.rows
      && forall r :: r in slice.rows ==> |r.key| >= 1 && watermark < RowTime(r, data.levels) <= end
  {
    var end := EndTimestamp(data).value;
    InRangeSelects(data.rows, data.levels, watermark + TimeResolution, end + TimeResolution);
    assert LastRow(data) in data.rows;
  }

  /** When the incoming rows are the already-covered ones (up to the
      watermark) followed by new ones (after it, up to the incoming end),
      exactly the new ones are appended: no duplicate and no dropped row. */
  lemma NovelSuffixIsExactlyAppended(data: Frame, covered: seq<Row>, novel: seq<Row>, watermark: int, end: int)
    requires data.WellFormed() && data.rows == covered + novel
    requires EndTimestamp(data) == Ok(end) && end > watermark + TimeResolution
    requires forall i :: 0 <= i < |covered| ==> |covered[i].key| >= 1 && RowTime(covered[i], data.levels) <= watermark
    requires forall i :: 0 <= i < |novel| ==> |novel[i].key| >= 1 && watermark < RowTime(novel[i], data.levels) <= end
    ensures Window(data, watermark + TimeResolution, end + TimeResolution).rows == novel
  {
    var start, stop := watermark + TimeResolution, end + TimeResolution;
    InRangeOfConcat(covered, novel, data.levels, start, stop);
    InRangeDropsAllOutside(covered, data.levels, start, stop);
    InRangeKeepsAllInside(novel, data.levels, start, stop);
  }

  /** After a successful write to an item on the whole-item path, the item
      opens with the caller's metadata plus the watermark, its file type
      and a stamp, and its data reads back as the frame written. */
  lemma WriteThenReadReturnsData(d: Disk, ds: string, c: string, name: string, data: Frame,
                                 metadata: Metadata, alwaysOverwrite: bool)
    requires data.WellFormed()
    requires WholeItemPath(d, ds, c, name, alwaysOverwrite)
    requires ClientWriteSpec(d, ds, c, name, data, metadata, alwaysOverwrite).outcome == Pass
    ensures data.rows != []
    ensures var d' := ClientWriteSpec(d, ds, c, name, data, metadata, alwaysOverwrite).disk;
      var fileType := InferFileType(data);
      var stored := Stamped(d, metadata[EndTimestampKey := Time(EndTimestamp(data).value)][FileTypeKey := Str(fileType)]);
      && LoadItem(d', ds, c, name) == Ok(ItemView(stored, fileType))
      && ReadData(d', ds, c, name, fileType) == Ok(Some(data))
      && EndTimestampKey in stored && FileTypeKey in stored && UpdatedKey in stored
  {
  }

  /** Repeating a write that succeeded, with `always_overwrite` off, is a
      no-op: the stored watermark now equals the incoming end timestamp.
      (An item named `_snapshots` is never listed, so it is left out.) */
  lemma RepeatedWriteIsNoOp(d: Disk, ds: string, c: string, name: string, data: Frame,
                            metadata: Metadata, metadata': Metadata)
    requires data.WellFormed() && name != Snapshots
    requires ClientWriteSpec(d, ds, c, name, data, metadata, false).outcome == Pass
    ensures var d' := ClientWriteSpec(d, ds, c, name, data, metadata, false).disk;
      ClientWriteSpec(d', ds, c, name, data, metadata', false) == Step(Pass, d')
  {
  }

  /** The watermark is the last index entry, not the largest: rows that
      arrive out of order leave a watermark below the data's latest time. */
  lemma WatermarkIsLastNotLargest()
    ensures var f := Frame(DataFrame, 1, [], [Row([5], []), Row([3], [])]);
      f.WellFormed() && EndTimestamp(f) == Ok(3)
  {
  }

  // A concrete ingestion run: times are minutes of the day, so 08:00 is 480.

  /** Three hourly points ending 08:00. */
  function FirstBatch(): Frame
  {
    Frame(Series, 1, [Column("price", true)], [Row([360], [Int(1)]), Row([420], [Int(2)]), Row([480], [Int(3)])])
  }

  /** Points at 09:00 and 10:00. */
  function SecondBatch(): Frame
  {
    Frame(Series, 1, [Column("price", true)], [Row([540], [Int(4)]), Row([600], [Int(5)])])
  }

  /** One point at 07:59. */
  function ThirdBatch(): Frame
  {
    Frame(Series, 1, [Column("price", true)], [Row([479], [Int(9)])])
  }

  /** The item `abc` is listed, opens with `watermark` recorded, and reads
      back as `stored` (pickled, as every Series is). */
  predicate Holds(d: Disk, ds: string, c: string, watermark: int, stored: Frame)
  {
    && Subdirs(d, ds, c).Ok? && "abc" in Subdirs(d, ds, c).value
    && LoadItem(d, ds, c, "abc").Ok?
    && LoadItem(d, ds, c, "abc").value.fileType == Pickle
    && EndTimestampKey in LoadItem(d, ds, c, "abc").value.metadata
    && LoadItem(d, ds, c, "abc").value.metadata[EndTimestampKey] == Time(watermark)
    && ReadData(d, ds, c, "abc", Pickle) == Ok(Some(stored))
  }

  /** The first write to the absent item stores the batch, watermark 08:00. */
  lemma FirstWriteStoresBatch(d: Disk, ds: string, c: string, metadata: Metadata)
    requires HasCollection(d, ds, c) && !HasItemDir(d, ds, c, "abc")
    ensures var s := ClientWriteSpec(d, ds, c, "abc", FirstBatch(), metadata, false);
      s.outcome == Pass && Holds(s.disk, ds, c, 480, FirstBatch())
  {
  }

  /** The second write appends both of its points and moves the watermark to 10:00. */
  lemma SecondWriteAppendsBatch(d: Disk, ds: string, c: string)
    requires Holds(d, ds, c, 480, FirstBatch())
    ensures var s := ClientWriteSpec(d, ds, c, "abc", SecondBatch(), map[], false);
      s.outcome == Pass && Holds(s.disk, ds, c, 600, Concat(FirstBatch(), SecondBatch()))
  {
    var second := SecondBatch();
    assert EndTimestamp(second) == Ok(600);
    assert InRange(second.rows[1..], 1, 481, 601) == second.rows[1..];
    assert Window(second, 481, 601) == second;
    var view := LoadItem(d, ds, c, "abc").value;
    var newMeta := view.metadata[EndTimestampKey := Time(600)];
    assert ClientWriteSpec(d, ds, c, "abc", second, map[], false) == AppendSpec(d, ds, c, "abc", second, newMeta);
    assert InferFileType(Concat(FirstBatch(), second)) == Pickle;
    assert AppendSpec(d, ds, c, "abc", second, newMeta).outcome == Pass;
    NovelWriteAppendsOnlyNewRows(d, ds, c, "abc", second, map[], 480);
    var d' := ClientWriteSpec(d, ds, c, "abc", second, map[], false).disk;
    assert HasItemDir(d', ds, c, "abc");
    assert "abc" != Snapshots;
  }

  /** The third write ends before the watermark and changes nothing. */
  lemma ThirdWriteIsNoOp(d: Disk, ds: string, c: string, stored: Frame)
    requires Holds(d, ds, c, 600, stored)
    ensures ClientWriteSpec(d, ds, c, "abc", ThirdBatch(), map[], false) == Step(Pass, d)
  {
  }

  /** The whole run: after the three writes the item holds the five points
      in order under the watermark 10:00, and the last write was a no-op. */
  lemma HourlyIngestionScenario(d: Disk, ds: string, c: string, metadata: Metadata)
    requires HasCollection(d, ds, c) && !HasItemDir(d, ds, c, "abc")
    ensures var s1 := ClientWriteSpec(d, ds, c, "abc", FirstBatch(), metadata, false);
      var s2 := ClientWriteSpec(s1.disk, ds, c, "abc", SecondBatch(), map[], false);
      var s3 := ClientWriteSpec(s2.disk, ds, c, "abc", ThirdBatch(), map[], false);
      && s1.outcome == Pass && s2.outcome == Pass && s3 == Step(Pass, s2.disk)
      && Holds(s2.disk, ds, c, 600, Concat(FirstBatch(), SecondBatch()))
      && Concat(FirstBatch(), SecondBatch()).rows ==
           [Row([360], [Int(1)]), Row([420], [Int(2)]), Row([480], [Int(3)]),
            Row([540], [Int(4)]), Row([600], [Int(5)])]
  {
    FirstWriteStoresBatch(d, ds, c, metadata);
    var s1 := ClientWriteSpec(d, ds, c, "abc", FirstBatch(), metadata, false);
    SecondWriteAppendsBatch(s1.disk, ds, c);
    var s2 := ClientWriteSpec(s1.disk, ds, c, "abc", SecondBatch(), map[], false);
    ThirdWriteIsNoOp(s2.disk, ds, c, Concat(FirstBatch(), SecondBatch()));
  }

  /** One new point at 10:01, the minute after the watermark. */
  function LoneNextMinute(): Frame
  {
    Frame(Series, 1, [Column("price", true)], [Row([601], [Int(6)])])
  }

  /** The 10:01 point followed by one at 10:02. */
  function NextTwoMinutes(): Frame
  {
    Frame(Series, 1, [Column("price", true)], [Row([601], [Int(6)]), Row([602], [Int(7)])])
  }

  /** A new point that lies exactly one resolution step after the watermark
      is dropped when it is the last one: its time is not greater than
      watermark plus resolution, so nothing is written, although the point
      is later than anything stored. */
  lemma LoneNextMinuteIsDropped(d: Disk, ds: string, c: string, stored: Frame)
    requires Holds(d, ds, c, 600, stored)
    ensures RowTime(LastRow(LoneNextMinute()), 1) == 601
    ensures ClientWriteSpec(d, ds, c, "abc", LoneNextMinute(), map[], false) == Step(Pass, d)
  {
    assert EndTimestamp(LoneNextMinute()) == Ok(601);
  }

  /** The same 10:01 point is stored when a later point follows it: the
      incoming end then passes watermark plus resolution and the window
      starts at 10:01. */
  lemma NextMinuteKeptWithALaterOne(d: Disk, ds: string, c: string, stored: Frame)
    requires Holds(d, ds, c, 600, stored)
    ensures var s := ClientWriteSpec(d, ds, c, "abc", NextTwoMinutes(), map[], false);
      && s.outcome == Pass
      && LoadItem(s.disk, ds, c, "abc").Ok?
      && ReadData(s.disk, ds, c, "abc", LoadItem(s.disk, ds, c, "abc").value.fileType)
           == Ok(Some(Concat(stored, NextTwoMinutes())))
  {
    var next := NextTwoMinutes();
    assert EndTimestamp(next) == Ok(602);
    assert InRange(next.rows[1..], 1, 601, 603) == next.rows[1..];
    assert Window(next, 601, 603) == next;
    var view := LoadItem(d, ds, c, "abc").value;
    var newMeta := view.metadata[EndTimestampKey := Time(602)];
    assert ClientWriteSpec(d, ds, c, "abc", next, map[], false) == AppendSpec(d, ds, c, "abc", next, newMeta);
    assert AppendSpec(d, ds, c, "abc", next, newMeta).outcome == Pass;
    NovelWriteAppendsOnlyNewRows(d, ds, c, "abc", next, map[], 600);
  }

  // ---------------------------------------------------------------------
  // The client object

  class PyStoreClient {
    const store: PyStore
    const collection: Collection

    constructor Init(store: PyStore, collection: Collection)
      ensures this.store == store && this.collection == collection
    {
      this.store := store;
      this.collection := collection;
    }

    /** `PyStoreClient(path, name, version)` on the opened datastore: a
        client of its collection `version`, created if not cached. */
    static method Open(store: PyStore, version: string) returns (r: Result<PyStoreClient>)
      modifies store, store.fs
      ensures version in old(store.collections) ==>
        r.Ok? && store.fs.disk == old(store.fs.disk) && store.collections == old(store.collections)
      ensures version !in old(store.collections) ==>
        var s := CreateCollectionSpec(old(store.fs.disk), store.datastore, version, false);
        store.fs.disk == s.disk && (r.Ok? <==> s.outcome.Pass?) && (r.Err? ==> r.error == s.outcome.error)
      ensures version !in old(store.collections) && r.Ok? ==>
        CollectionNames(store.fs.disk, store.datastore) == Ok(store.collections)
      ensures r.Err? ==> store.collections == old(store.collections)
      ensures r.Ok? ==>
        fresh(r.value) && r.value.store == store &&
        r.value.collection.fs == store.fs && r.value.collection.datastore == store.datastore &&
        r.value.collection.collection == version && r.value.collection.engine == store.engine
    {
      var handle := store.GetCollection(version, false);
      if handle.Err? {
        return Err(handle.error);
      }
      var client := new PyStoreClient.Init(store, handle.value);
      r := Ok(client);
    }

    /** `read(name)`: the item handle. */
    method Read(name: string) returns (r: Result<Item>)
      ensures var l := LoadItem(collection.fs.disk, collection.datastore, collection.collection, name);
        (l.Err? ==> r == Err(l.error)) &&
        (l.Ok? ==> r.Ok? && fresh(r.value) && r.value.Valid() && r.value.cache == None &&
                   ItemView(r.value.metadata, r.value.fileType) == l.value &&
                   r.value.fs == collection.fs && r.value.datastore == collection.datastore &&
                   r.value.collection == collection.collection && r.value.item == name)
    {
      r := collection.GetItem(name);
    }

    /** `write(name, data, metadata, always_overwrite)`. */
    method Write(name: string, data: Frame, metadata: MetaDict?, alwaysOverwrite: bool) returns (r: Outcome)
      requires data.WellFormed()
      modifies collection.fs, metadata
      ensures var s := ClientWriteSpec(old(collection.fs.disk), collection.datastore, collection.collection,
                                       name, data, old(Given(metadata)), alwaysOverwrite);
        r == s.outcome && collection.fs.disk == s.disk
      ensures old(Truthy(metadata)) ==>
        metadata.entries == CallerMetadataAfter(old(collection.fs.disk), collection.datastore,
                                                collection.collection, name, data,
                                                old(metadata.entries), alwaysOverwrite)
      ensures !old(Truthy(metadata)) && metadata != null ==> metadata.entries == old(metadata.entries)
    {
      var meta: MetaDict;
      if Truthy(metadata) {
        meta := metadata;
      } else {
        meta := new MetaDict(map[]);
      }
      var whole := alwaysOverwrite;
      if !alwaysOverwrite {
        var names := collection.ListItems(map[]);
        if names.Err? {
          return Fail(names.error);
        }
        whole := name !in names.value;
      }
      if whole {
        r := WriteWithWatermark(name, data, meta);
      } else {
        r := AppendAfterWatermark(name, data);
      }
    }

    /** `_write(name, data, metadata)`. */
    method WriteWithWatermark(name: string, data: Frame, metadata: MetaDict?) returns (r: Outcome)
      requires data.WellFormed()
      modifies collection.fs, metadata
      ensures var s := WriteWithWatermarkSpec(old(collection.fs.disk), collection.datastore,
                                              collection.collection, name, data, old(Given(metadata)));
        r == s.outcome && collection.fs.disk == s.disk
      ensures old(Truthy(metadata)) ==>
        metadata.entries ==
          if EndTimestamp(data).Err? then old(metadata.entries)
          else old(metadata.entries)[EndTimestampKey := Time(EndTimestamp(data).value)]
                                    [FileTypeKey := Str(InferFileType(data))]
      ensures !old(Truthy(metadata)) && metadata != null ==> metadata.entries == old(metadata.entries)
    {
      var meta: MetaDict;
      if Truthy(metadata) {
        meta := metadata;
      } else {
        meta := new MetaDict(map[]);
      }
      var end := EndTimestamp(data);
      if end.Err? {
        return Fail(end.error);
      }
      meta.Set(EndTimestampKey, Time(end.value));
      r := collection.Write(name, data, meta, false);
    }

    /** `_append(name, data)`. */
    method AppendAfterWatermark(name: string, data: Frame) returns (r: Outcome)
      requires data.WellFormed()
      modifies collection.fs
      ensures var s := AppendAfterWatermarkSpec(old(collection.fs.disk), collection.datastore,
                                                collection.collection, name, data);
        r == s.outcome && collection.fs.disk == s.disk
    {
      var existing := Read(name);
      if existing.Err? {
        return Fail(existing.error);
      }
      var metadata := existing.value.metadata;
      if EndTimestampKey !in metadata {
        return Fail(MissingKey(EndTimestampKey));
      }
      if !metadata[EndTimestampKey].Time? {
        return Fail(BadTimestamp);
      }
      var existingEnd := metadata[EndTimestampKey].t + TimeResolution;
      var newEnd := EndTimestamp(data);
      if newEnd.Err? {
        return Fail(newEnd.error);
      }
      if newEnd.value > existingEnd {
        var newMetadata := new MetaDict(metadata[EndTimestampKey := Time(newEnd.value)]);
        r := collection.Append(name, Window(data, existingEnd, newEnd.value + TimeResolution), newMetadata);
      } else {
        r := Pass;
      }
    }
  }
}
