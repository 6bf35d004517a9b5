/** The Android collaborators the record reads from and writes to: a `Parcel`
    (a typed value buffer), a `ContentValues` property bag and one `Cursor` row.
    Only what the record uses is modelled. */
module Android {
  import opened Java

  /** One value in a parcel: the three kinds the record writes. */
  datatype ParcelValue =
    | LongValue(l: Long)
    | IntValue(i: Int)
    | StringValue(s: Option<string>)

  /** A parcel: values are appended at the end (`writeLong`, `writeInt`,
      `writeString`) and read back from a separate read position. */
  class Parcel {
    var values: seq<ParcelValue>
    var position: nat

    ghost predicate Valid()
      reads this
    {
      position <= |values|
    }

    /** `Parcel.obtain()`: an empty parcel. */
    constructor ()
      ensures Valid() && values == [] && position == 0
    {
      values := [];
      position := 0;
    }

    method WriteLong(v: Long)
      modifies this`values
      ensures values == old(values) + [LongValue(v)] && position == old(position)
    {
      values := values + [LongValue(v)];
    }

    method WriteInt(v: Int)
      modifies this`values
      ensures values == old(values) + [IntValue(v)] && position == old(position)
    {
      values := values + [IntValue(v)];
    }

    method WriteString(v: Option<string>)
      modifies this`values
      ensures values == old(values) + [StringValue(v)] && position == old(position)
    {
      values := values + [StringValue(v)];
    }

    /** `readLong`: the next value, moving the read position past it. */
    method ReadLong() returns (v: Long)
      requires Valid()
      modifies this`position
      ensures Valid()
      ensures v == LongRead(values, old(position)) && position == Advance(values, old(position))
    {
      if position < |values| {
        v := if values[position].LongValue? then values[position].l else 0;
        position := position + 1;
      } else {
        v := 0;
      }
    }

    /** `readInt`: the next value, moving the read position past it. */
    method ReadInt() returns (v: Int)
      requires Valid()
      modifies this`position
      ensures Valid()
      ensures v == IntRead(values, old(position)) && position == Advance(values, old(position))
    {
      if position < |values| {
        v := if values[position].IntValue? then values[position].i else 0;
        position := position + 1;
      } else {
        v := 0;
      }
    }

    /** `readString`: the next value, moving the read position past it. */
    method ReadString() returns (v: Option<string>)
      requires Valid()
      modifies this`position
      ensures Valid()
      ensures v == StringRead(values, old(position)) && position == Advance(values, old(position))
    {
      if position < |values| {
        v := if values[position].StringValue? then values[position].s else None;
        position := position + 1;
      } else {
        v := None;
      }
    }
  }

  /** The read position after one read from `pos`: one value on, or unmoved once
      the data is used up. */
  function Advance(values: seq<ParcelValue>, pos: nat): (r: nat)
    ensures pos < |values| ==> r == pos + 1
    ensures pos >= |values| ==> r == pos
  {
    if pos < |values| then pos + 1 else pos
  }

  /** What `readLong` yields at `pos`: the stored `long`, or 0 once the data is used up
      (or when the value there is of another kind). */
  function LongRead(values: seq<ParcelValue>, pos: nat): (r: Long)
    ensures pos < |values| && values[pos].LongValue? ==> r == values[pos].l
    ensures pos >= |values| ==> r == 0
  {
    if pos < |values| && values[pos].LongValue? then values[pos].l else 0
  }

  /** What `readInt` yields at `pos`: the stored `int`, or 0 once the data is used up. */
  function IntRead(values: seq<ParcelValue>, pos: nat): (r: Int)
    ensures pos < |values| && values[pos].IntValue? ==> r == values[pos].i
    ensures pos >= |values| ==> r == 0
  {
    if pos < |values| && values[pos].IntValue? then values[pos].i else 0
  }

  /** What `readString` yields at `pos`: the stored string, or null once the data is used up. */
  function StringRead(values: seq<ParcelValue>, pos: nat): (r: Option<string>)
    ensures pos < |values| && values[pos].StringValue? ==> r == values[pos].s
    ensures pos >= |values| ==> r == None
  {
    if pos < |values| && values[pos].StringValue? then values[pos].s else None
  }

  /** What the typed getters of a property bag give for a key that is present:
      `Utils.getAsLong`, `Utils.getAsBoolean` and `ContentValues.getAsString`. */
  datatype Entry = Entry(asLong: Long, asBoolean: bool, asString: Option<string>)

  /** A `ContentValues` bag, keyed by column. */
  type ContentValues<K> = map<K, Entry>

  /** `Utils.getAsLong(values, key, def)`: the stored reading, or `def` when the key is absent. */
  function GetAsLong<K>(values: ContentValues<K>, key: K, def: Long): (r: Long)
    ensures key !in values ==> r == def
  {
    if key in values then values[key].asLong else def
  }

  /** `Utils.getAsBoolean(values, key, def)`: the stored reading, or `def` when the key is absent. */
  function GetAsBoolean<K>(values: ContentValues<K>, key: K, def: bool): (r: bool)
    ensures key !in values ==> r == def
  {
    if key in values then values[key].asBoolean else def
  }

  /** `ContentValues.getAsString(key)`: the stored reading, or null when the key is absent. */
  function GetAsString<K>(values: ContentValues<K>, key: K): (r: Option<string>)
    ensures key !in values ==> r == None
  {
    if key in values then values[key].asString else None
  }

  /** What `Cursor.getLong`, `getShort` and `getString` give for one column of the current row. */
  datatype Cell = Cell(asLong: Long, asShort: Short, asString: Option<string>)

  /** The current row of a cursor: one cell per column. */
  datatype Row = Row(cells: seq<Cell>)

  /** Why reading the row threw. */
  datatype CursorError =
    | ColumnOutOfRange(column: int)   // a typed getter was given a column the row does not have
    | NullUnboxing                    // a null `Boolean` was unboxed into a `boolean`

  function GetLong(row: Row, column: int): (r: Result<Long, CursorError>)
    ensures r.Success? <==> 0 <= column < |row.cells|
  {
    if 0 <= column < |row.cells| then Success(row.cells[column].asLong) else Failure(ColumnOutOfRange(column))
  }

  function GetShort(row: Row, column: int): (r: Result<Short, CursorError>)
    ensures r.Success? <==> 0 <= column < |row.cells|
  {
    if 0 <= column < |row.cells| then Success(row.cells[column].asShort) else Failure(ColumnOutOfRange(column))
  }

  function GetString(row: Row, column: int): (r: Result<Option<string>, CursorError>)
    ensures r.Success? <==> 0 <= column < |row.cells|
  {
    if 0 <= column < |row.cells| then Success(row.cells[column].asString) else Failure(ColumnOutOfRange(column))
  }
}
