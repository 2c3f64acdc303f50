/**
 * The tileset source backed by a 3DTILES file, an SQLite database with one
 * table `media(key TEXT, content BLOB)` (the `TilesetSource3dtiles` class).
 * The source is open exactly while it holds a database handle. The database
 * is modelled by the structure of its tables and the rows of `media`; the
 * table-structure validator is a parameter.
 */
module TilesetSource3dtiles {
  import opened Base

  datatype ColumnStructure = ColumnStructure(name: string, columnType: string)

  /** A `TableStructure`: a table name and its columns, in order. */
  datatype TableStructure = TableStructure(name: string, columns: seq<ColumnStructure>)

  /** One row of the `media` table. */
  datatype Row = Row(key: string, content: Buffer)

  /** An opened SQLite database: the structure of its tables and the rows of `media`, in scan order. */
  datatype Database = Database(tables: seq<TableStructure>, media: seq<Row>)

  /** The structure that `open` demands: exactly the table `media` with the columns `key: TEXT` and `content: BLOB`. */
  const MediaTableStructure: TableStructure :=
    TableStructure("media", [ColumnStructure("key", "TEXT"), ColumnStructure("content", "BLOB")])

  /** `TableStructureValidator.validate`: an error message, or `undefined` when the database has the structure. */
  type Validator = (Database, TableStructure) -> Option<string>

  /** The `key` column of the rows, as `SELECT * FROM media` yields them. */
  function Keys(rows: seq<Row>): (keys: seq<string>)
    ensures |keys| == |rows|
    ensures forall i :: 0 <= i < |rows| ==> keys[i] == rows[i].key
  {
    if rows == [] then [] else [rows[0].key] + Keys(rows[1..])
  }

  /** `SELECT * FROM media WHERE key = ?` with `get`: the content of the first row with the key, if any. */
  function Lookup(rows: seq<Row>, key: string): (content: Option<Buffer>)
    ensures content.None? <==> key !in Keys(rows)
    ensures content.Some? ==> Row(key, content.value) in rows
  {
    if rows == [] then None
    else if rows[0].key == key then Some(rows[0].content)
    else
      assert Keys(rows) == [rows[0].key] + Keys(rows[1..]);
      Lookup(rows[1..], key)
  }

  /** The position of the first row with the key, or the number of rows when there is none. */
  function FirstIndex(rows: seq<Row>, key: string): (i: nat)
    ensures i <= |rows|
    ensures i < |rows| ==> rows[i].key == key
    ensures forall k :: 0 <= k < i ==> rows[k].key != key
  {
    if rows == [] then 0
    else if rows[0].key == key then 0
    else
      var rest := FirstIndex(rows[1..], key);
      assert forall k :: 1 <= k < rest + 1 ==> rows[k] == rows[1..][k - 1];
      rest + 1
  }

  /** The row `getValue` finds is the first row with the key, and there is none exactly when no row has it. */
  lemma {:induction false} LookupIsFirstMatch(rows: seq<Row>, key: string)
    ensures var i := FirstIndex(rows, key);
            Lookup(rows, key) == if i < |rows| then Some(rows[i].content) else None
  {
    if rows != [] && rows[0].key != key {
      LookupIsFirstMatch(rows[1..], key);
    }
  }

  /** Every key that `getKeys` yields is found by `getValue`, and where keys are unique it finds that row's content. */
  lemma LookupFindsEveryRow(rows: seq<Row>, i: nat)
    requires i < |rows|
    requires forall j, k :: 0 <= j < k < |rows| ==> rows[j].key != rows[k].key
    ensures Lookup(rows, Keys(rows)[i]) == Some(rows[i].content)
  {
    var key := rows[i].key;
    LookupIsFirstMatch(rows, key);
    assert FirstIndex(rows, key) == i;
  }

  class TilesetSource3dtiles {
    /** The database handle, or `None` when the source is not opened. */
    var db: Option<Database>

    constructor ()
      ensures db == None
    {
      db := None;
    }

    predicate IsOpen()
      reads this
    {
      db.Some?
    }

    /**
     * `open`: fails on an open source and keeps its handle; otherwise opens the
     * database of that name and validates it against `media(key TEXT, content
     * BLOB)`. On a mismatch it closes the handle again and fails with the
     * validator's message.
     */
    method Open(fullInputName: string, openDatabase: string -> Database, validate: Validator) returns (r: Outcome)
      modifies this
      ensures old(IsOpen()) ==> r == Failed(TilesetError("Database already opened")) && db == old(db)
      ensures !old(IsOpen()) && !IsTruthy(validate(openDatabase(fullInputName), MediaTableStructure)) ==>
                r == Done && db == Some(openDatabase(fullInputName))
      ensures !old(IsOpen()) && IsTruthy(validate(openDatabase(fullInputName), MediaTableStructure)) ==>
                r == Failed(TilesetError(validate(openDatabase(fullInputName), MediaTableStructure).value)) && db == None
      ensures r.Done? ==> IsOpen()
    {
      if db.Some? {
        return Failed(TilesetError("Database already opened"));
      }
      db := Some(openDatabase(fullInputName));
      var message := validate(db.value, MediaTableStructure);
      if IsTruthy(message) {
        var closed := Close();
        return Failed(TilesetError(message.value));
      }
      return Done;
    }

    /** `getKeys`: the key of every row of `media`, in scan order; fails when not opened. */
    method GetKeys() returns (r: Result<seq<string>>)
      ensures !IsOpen() ==> r == Err(TilesetError("Source is not opened. Call 'open' first."))
      ensures IsOpen() ==> r.Ok? && |r.value| == |db.value.media|
      ensures IsOpen() ==> forall i :: 0 <= i < |r.value| ==> r.value[i] == db.value.media[i].key
    {
      if db.None? {
        return Err(TilesetError("Source is not opened. Call 'open' first."));
      }
      return Ok(Keys(db.value.media));
    }

    /** `getValue`: the content stored under the key, or `undefined`; fails with a plain `Error` when not opened. */
    method GetValue(key: string) returns (r: Result<Option<Buffer>>)
      ensures !IsOpen() ==> r == Err(PlainError("Source is not opened. Call 'open' first."))
      ensures IsOpen() ==> r.Ok? && (r.value.None? <==> key !in Keys(db.value.media))
      ensures IsOpen() && r.value.Some? ==> Row(key, r.value.value) in db.value.media
      ensures IsOpen() ==> r.value == Lookup(db.value.media, key)
    {
      if db.None? {
        return Err(PlainError("Source is not opened. Call 'open' first."));
      }
      return Ok(Lookup(db.value.media, key));
    }

    /** `close`: releases the handle; fails with a plain `Error` when not opened, so a second `close` fails. */
    method Close() returns (r: Outcome)
      modifies this
      ensures old(IsOpen()) ==> r == Done && db == None
      ensures !old(IsOpen()) ==> r == Failed(PlainError("Source is not opened. Call 'open' first.")) && db == old(db)
      ensures !IsOpen()
    {
      if db.None? {
        return Failed(PlainError("Source is not opened. Call 'open' first."));
      }
      db := None;
      return Done;
    }
  }
}
