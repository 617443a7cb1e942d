// Values shared by every layer of the model: JSON-like metadata values,
// the errors the store raises, and the dictionary a caller hands to
// `write`, which the store fills in place.
module Values {

  datatype Option<+T> = None | Some(value: T)

  /** A JSON-compatible metadata value. Timestamps (the `end_timestamp`
      watermark and the `_updated` stamp) are kept as integers; writing a
      timestamp as text and parsing it back is taken to be the identity. */
  datatype Value = Str(s: string) | Int(i: int) | Bool(b: bool) | Null | Time(t: int)

  /** Python's `==` on metadata values: a bool equals the int 1 or 0 it
      stands for; otherwise values are equal when they are the same value. */
  predicate PyEquals(a: Value, b: Value)
  {
    match (a, b)
    case (Bool(x), Int(i)) => i == (if x then 1 else 0)
    case (Int(i), Bool(x)) => i == (if x then 1 else 0)
    case _ => a == b
  }

  /** The contents of a `metadata.json` file. */
  type Metadata = map<string, Value>

  /** Reserved metadata keys. */
  const FileTypeKey := "file_type"
  const UpdatedKey := "_updated"
  const EndTimestampKey := "end_timestamp"
  const EngineKey := "engine"

  /** The exceptions the store raises, one constructor per cause. */
  datatype Error =
    | ItemExists             // write without overwrite on an existing item
    | ItemMissing            // an Item opened where no item directory is
    | CollectionExists       // creating an existing collection without overwrite
    | NotFound               // a directory or file the filesystem cannot find
    | NotADirectory          // a directory tree removed where a file is
    | NoMetadata             // no metadata.json: reading it gave None, which was then subscripted
    | MissingKey(key: string)  // a KeyError on a metadata mapping
    | NotAString             // a file type that is not a string, joined to "data."
    | BadTimestamp           // a stored watermark that does not parse as a timestamp
    | EmptyIndex             // the last index entry of an empty frame
    | NoData                 // `data` evaluated to None, and was then appended to

  datatype Result<+T> = Ok(value: T) | Err(error: Error)

  datatype Outcome = Pass | Fail(error: Error)

  /** A Python dict of metadata that the caller owns and the store may
      change in place. A null `MetaDict?` stands for the argument `None`. */
  class MetaDict {
    var entries: Metadata

    constructor (entries: Metadata)
      ensures this.entries == entries
    {
      this.entries := entries;
    }

    /** `d[key] = v` */
    method Set(key: string, v: Value)
      modifies this
      ensures entries == old(entries)[key := v]
    {
      entries := entries[key := v];
    }
  }

  /** Python's truth value of a metadata argument: `metadata or {}` keeps
      the caller's dict exactly when it is not None and not empty. */
  predicate Truthy(m: MetaDict?)
    reads m
  {
    m != null && m.entries != map[]
  }

  /** The mapping a metadata argument denotes. */
  function Given(m: MetaDict?): Metadata
    reads m
  {
    if m == null then map[] else m.entries
  }
}
