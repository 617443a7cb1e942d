// The tabular datasets the store holds (pandas Series and DataFrames),
// reduced to what the store's decisions look at: the kind of object, the
// number of index levels, the outcome of the store's dtype test per column, and
// the rows with their index keys.
module Frames {
  import opened Values

  datatype Kind = Series | DataFrame

  /** A column and the outcome of the store's dtype test on it: whether the
      class of the column's dtype, `type(t)`, is found in the list of
      float32, float64 and int64 dtype instances. That outcome rests on
      numpy's dtype equality and need not agree with whether the column
      is numeric. */
  datatype Column = Column(name: string, numeric: bool)

  /** One row: its index key (one timestamp per index level) and its cells. */
  datatype Row = Row(key: seq<int>, cells: seq<Value>)

  datatype Frame = Frame(kind: Kind, levels: nat, columns: seq<Column>, rows: seq<Row>)
  {
    /** A pandas index has at least one level, and every key has one entry per level. */
    predicate WellFormed()
    {
      levels >= 1 && forall i :: 0 <= i < |rows| ==> |rows[i].key| == levels
    }
  }

  /** `existing.append(new)`: the rows of `b` after the rows of `a`, in
      order, with no sorting or deduplication. The stored frame's shape is kept. */
  function Concat(a: Frame, b: Frame): Frame
  {
    a.(rows := a.rows + b.rows)
  }

  /** Python's `max` of a non-empty tuple of timestamps. */
  function MaxOf(s: seq<int>): (m: int)
    requires |s| > 0
    ensures m in s
    ensures forall x :: x in s ==> x <= m
  {
    if |s| == 1 then s[0]
    else
      var rest := MaxOf(s[1..]);
      assert forall x :: x in s ==> x == s[0] || x in s[1..];
      if s[0] >= rest then s[0] else rest
  }

  /** The time a row stands for: its timestamp under a single-level index,
      the latest of its timestamps under a multi-level one. */
  function RowTime(r: Row, levels: nat): int
    requires |r.key| >= 1
  {
    if levels == 1 then r.key[0] else MaxOf(r.key)
  }
}
