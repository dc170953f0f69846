/**
 * The `bacteria` table shared by the API routes, the CSV loader and the scraper: its columns and
 * defaults, and an in-memory table whose rows are kept in ascending id order, as `ORDER BY id` returns them.
 */
module BacteriaStore {
  import opened Wrappers
  import opened Values

  /** The data columns of the `bacteria` table, in declaration order. */
  const DataColumns: seq<string> := [
    "bacteria_id", "name", "superkingdom", "kingdom", "phylum", "class_name", "order", "family", "genus",
    "species", "strain", "gram_stain", "shape", "mobility", "flagellar_presence", "number_of_membranes",
    "oxygen_preference", "optimal_temperature", "temperature_range", "habitat", "biotic_relationship",
    "cell_arrangement", "sporulation", "metabolism", "energy_source", "is_pathogen"]

  const DataColumnSet: set<string> := set c | c in DataColumns

  /** Every column name of the table: the surrogate key, the data columns and the two timestamps. */
  const AllColumns: set<string> := {"id", "created_at", "updated_at"} + DataColumnSet

  /** The columns an update may set: every data column except the natural key. */
  const UpdatableColumns: set<string> := DataColumnSet - {"bacteria_id"}

  /** Column defaults applied on insert: `is_pathogen` defaults to false, every other data column to NULL. */
  function ColumnDefaults(): (d: Record)
    ensures d.Keys == DataColumnSet
  {
    map c | c in DataColumnSet :: if c == "is_pathogen" then Bool(false) else Null
  }

  /** One stored row: its surrogate id and the values of its data columns. */
  datatype Row = Row(id: int, cols: Record)

  /** A complete row: every data column has a value and the natural key is a string. */
  predicate WellFormedRow(r: Row) {
    Keyed(r) && r.cols.Keys == DataColumnSet
  }

  /** The row carries its natural key as a string. */
  predicate Keyed(r: Row) {
    "bacteria_id" in r.cols && r.cols["bacteria_id"].Str?
  }

  /** Column values an insert accepts: data columns only, with the natural key given as a string. */
  predicate Insertable(values: Record) {
    "bacteria_id" in values && values["bacteria_id"].Str? && values.Keys <= DataColumnSet
  }

  /** The natural key of a record to be inserted. */
  function IdOf(values: Record): string
    requires Insertable(values)
  {
    values["bacteria_id"].s
  }

  /** The natural keys of a list of records. */
  function IdSet(batch: seq<Record>): (ids: set<string>)
    requires forall k :: 0 <= k < |batch| ==> Insertable(batch[k])
    ensures forall k :: 0 <= k < |batch| ==> IdOf(batch[k]) in ids
  {
    set k | 0 <= k < |batch| :: IdOf(batch[k])
  }

  /** No two records of the list share a natural key. */
  predicate UniqueIds(batch: seq<Record>)
    requires forall k :: 0 <= k < |batch| ==> Insertable(batch[k])
  {
    forall i, j :: 0 <= i < j < |batch| ==> IdOf(batch[i]) != IdOf(batch[j])
  }

  /** The row an insert of the given column values produces, with the defaults filled in. */
  function NewRow(id: int, values: Record): (r: Row)
    requires Insertable(values)
    ensures WellFormedRow(r) && r.id == id
  {
    Row(id, ColumnDefaults() + values)
  }

  /** An inserted row keeps every given value and takes the column default everywhere else. */
  lemma NewRowColumns(id: int, values: Record)
    requires Insertable(values)
    ensures var r := NewRow(id, values);
      && (forall c :: c in values ==> r.cols[c] == values[c])
      && (forall c :: c in DataColumnSet && c !in values ==> r.cols[c] == ColumnDefaults()[c])
      && BacteriaIdOf(r) == IdOf(values)
  {
  }

  function BacteriaIdOf(r: Row): string
    requires Keyed(r)
  {
    r.cols["bacteria_id"].s
  }

  /** Rows in strictly ascending id order. */
  predicate IdsAscending(rows: seq<Row>) {
    forall i, j :: 0 <= i < j < |rows| ==> rows[i].id < rows[j].id
  }

  /** Rows in strictly ascending id order, every row complete, and the natural key unique. */
  ghost predicate ValidRows(rows: seq<Row>, nextId: int) {
    && IdsAscending(rows)
    && (forall i :: 0 <= i < |rows| ==> 1 <= rows[i].id < nextId && WellFormedRow(rows[i]))
    && (forall i, j :: 0 <= i < j < |rows| ==> BacteriaIdOf(rows[i]) != BacteriaIdOf(rows[j]))
  }

  /** The rows a multi-row insert produces: consecutive ids from `firstId`, in the order given. */
  function NewRows(firstId: int, batch: seq<Record>): (rows: seq<Row>)
    requires forall k :: 0 <= k < |batch| ==> Insertable(batch[k])
    ensures |rows| == |batch|
    ensures forall k :: 0 <= k < |batch| ==> rows[k] == NewRow(firstId + k, batch[k])
  {
    if batch == [] then []
    else NewRows(firstId, batch[..|batch| - 1]) + [NewRow(firstId + |batch| - 1, batch[|batch| - 1])]
  }

  /** The natural keys stored in the table. */
  function TableIds(rows: seq<Row>): (ids: set<string>)
    ensures forall r :: r in rows && Keyed(r) ==> BacteriaIdOf(r) in ids
  {
    set r | r in rows && Keyed(r) :: BacteriaIdOf(r)
  }

  /** The position of the row with surrogate id `id`, if any. */
  function IndexOfId(rows: seq<Row>, id: int): (k: Option<nat>)
    ensures k.Some? ==> k.value < |rows| && rows[k.value].id == id
    ensures k.None? <==> forall i :: 0 <= i < |rows| ==> rows[i].id != id
  {
    if rows == [] then None
    else if rows[0].id == id then Some(0)
    else
      match IndexOfId(rows[1..], id)
      case None => None
      case Some(k) => Some(k + 1)
  }

  /** The position of the first row whose natural key is `bacteriaId`, if any. */
  function IndexOfBacteriaId(rows: seq<Row>, bacteriaId: string): (k: Option<nat>)
    requires forall i :: 0 <= i < |rows| ==> Keyed(rows[i])
    ensures k.Some? ==> k.value < |rows| && BacteriaIdOf(rows[k.value]) == bacteriaId
    ensures k.Some? ==> forall i :: 0 <= i < k.value ==> BacteriaIdOf(rows[i]) != bacteriaId
    ensures k.None? <==> forall i :: 0 <= i < |rows| ==> BacteriaIdOf(rows[i]) != bacteriaId
  {
    IndexOfBacteriaIdFrom(rows, bacteriaId, 0)
  }

  /** The position of the first row at or after `start` whose natural key is `bacteriaId`, if any. */
  function IndexOfBacteriaIdFrom(rows: seq<Row>, bacteriaId: string, start: nat): (k: Option<nat>)
    requires forall i :: 0 <= i < |rows| ==> Keyed(rows[i])
    ensures k.Some? ==> start <= k.value < |rows| && BacteriaIdOf(rows[k.value]) == bacteriaId
    ensures k.Some? ==> forall i :: start <= i < k.value ==> BacteriaIdOf(rows[i]) != bacteriaId
    ensures k.None? ==> forall i :: start <= i < |rows| ==> BacteriaIdOf(rows[i]) != bacteriaId
    decreases |rows| - start
  {
    if start >= |rows| then None
    else if BacteriaIdOf(rows[start]) == bacteriaId then Some(start)
    else IndexOfBacteriaIdFrom(rows, bacteriaId, start + 1)
  }

  /** Overwriting a row with one of the same id and natural key keeps the table valid. */
  lemma ReplaceKeepsValid(rows: seq<Row>, nextId: int, k: nat, row: Row)
    requires ValidRows(rows, nextId) && k < |rows|
    requires row.id == rows[k].id && WellFormedRow(row) && BacteriaIdOf(row) == BacteriaIdOf(rows[k])
    ensures ValidRows(rows[k := row], nextId)
  {
    var s := rows[k := row];
    forall i | 0 <= i < |s| ensures s[i].id == rows[i].id && WellFormedRow(s[i]) && BacteriaIdOf(s[i]) == BacteriaIdOf(rows[i]) {
    }
  }

  /** The rows without the one at position `k`, the others in their order. */
  function Without(rows: seq<Row>, k: nat): (s: seq<Row>)
    requires k < |rows|
    ensures |s| == |rows| - 1
    ensures forall i :: 0 <= i < k ==> s[i] == rows[i]
    ensures forall i :: k <= i < |s| ==> s[i] == rows[i + 1]
  {
    rows[..k] + rows[k + 1..]
  }

  /** Removing one row keeps the table valid. */
  lemma RemoveKeepsValid(rows: seq<Row>, nextId: int, k: nat)
    requires ValidRows(rows, nextId) && k < |rows|
    ensures ValidRows(Without(rows, k), nextId)
  {
    var s := Without(rows, k);
    forall i, j | 0 <= i < j < |s|
      ensures s[i].id < s[j].id && BacteriaIdOf(s[i]) != BacteriaIdOf(s[j])
    {
      var i', j' := if i < k then i else i + 1, if j < k then j else j + 1;
      assert s[i] == rows[i'] && s[j] == rows[j'] && i' < j';
    }
  }

  /** Removing the row at `k` removes exactly the rows with its id: ids are unique, so every other row stays. */
  lemma RemoveExactlyThatRow(rows: seq<Row>, nextId: int, k: nat)
    requires ValidRows(rows, nextId) && k < |rows|
    ensures forall x :: x in Without(rows, k) <==> x in rows && x.id != rows[k].id
  {
    RemainingRowsKept(rows, k);
    OtherRowsRemain(rows, k);
  }

  lemma RemainingRowsKept(rows: seq<Row>, k: nat)
    requires IdsAscending(rows) && k < |rows|
    ensures forall x :: x in Without(rows, k) ==> x in rows && x.id != rows[k].id
  {
    var s := Without(rows, k);
    forall x | x in s ensures x in rows && x.id != rows[k].id {
      var i :| 0 <= i < |s| && s[i] == x;
      var i' := if i < k then i else i + 1;
      assert x == rows[i'] && i' != k;
    }
  }

  lemma OtherRowsRemain(rows: seq<Row>, k: nat)
    requires k < |rows|
    ensures forall x :: x in rows && x.id != rows[k].id ==> x in Without(rows, k)
  {
    var s := Without(rows, k);
    forall x | x in rows && x.id != rows[k].id ensures x in s {
      var i :| 0 <= i < |rows| && rows[i] == x;
      assert s[if i < k then i else i - 1] == x;
    }
  }

  /** The rows of a multi-row insert carry the batch's natural keys. */
  lemma NewRowsKeys(firstId: int, batch: seq<Record>)
    requires forall k :: 0 <= k < |batch| ==> Insertable(batch[k])
    ensures forall k :: 0 <= k < |batch| ==> BacteriaIdOf(NewRows(firstId, batch)[k]) == IdOf(batch[k])
  {
    forall k | 0 <= k < |batch| ensures BacteriaIdOf(NewRows(firstId, batch)[k]) == IdOf(batch[k]) {
      NewRowColumns(firstId + k, batch[k]);
    }
  }

  /** Appending a batch with fresh, distinct natural keys keeps the table valid. */
  lemma AppendKeepsValid(rows: seq<Row>, nextId: int, batch: seq<Record>)
    requires ValidRows(rows, nextId) && nextId >= 1
    requires forall k :: 0 <= k < |batch| ==> Insertable(batch[k])
    requires UniqueIds(batch) && IdSet(batch) !! TableIds(rows)
    ensures ValidRows(rows + NewRows(nextId, batch), nextId + |batch|)
  {
    var added := NewRows(nextId, batch);
    var s := rows + added;
    NewRowsKeys(nextId, batch);
    forall i, j | 0 <= i < j < |s|
      ensures s[i].id < s[j].id && BacteriaIdOf(s[i]) != BacteriaIdOf(s[j])
    {
      if j < |rows| {
        assert s[i] == rows[i] && s[j] == rows[j];
      } else if i < |rows| {
        assert s[i] == rows[i] && s[j] == added[j - |rows|];
        assert BacteriaIdOf(rows[i]) in TableIds(rows);
        assert IdOf(batch[j - |rows|]) in IdSet(batch);
      } else {
        assert s[i] == added[i - |rows|] && s[j] == added[j - |rows|];
      }
    }
    forall i | 0 <= i < |s| ensures 1 <= s[i].id < nextId + |batch| && WellFormedRow(s[i]) {
      if i >= |rows| { assert s[i] == added[i - |rows|]; }
    }
  }

  /** Appending a batch adds exactly the batch's natural keys to those stored. */
  lemma AppendAddsKeys(rows: seq<Row>, nextId: int, batch: seq<Record>)
    requires forall k :: 0 <= k < |batch| ==> Insertable(batch[k])
    ensures TableIds(rows + NewRows(nextId, batch)) == TableIds(rows) + IdSet(batch)
  {
    NewRowsKeys(nextId, batch);
    AppendedKeysWithin(rows, nextId, batch);
    BatchKeysAppended(rows, nextId, batch);
  }

  lemma AppendedKeysWithin(rows: seq<Row>, nextId: int, batch: seq<Record>)
    requires forall k :: 0 <= k < |batch| ==> Insertable(batch[k])
    requires forall k :: 0 <= k < |batch| ==> BacteriaIdOf(NewRows(nextId, batch)[k]) == IdOf(batch[k])
    ensures TableIds(rows + NewRows(nextId, batch)) <= TableIds(rows) + IdSet(batch)
  {
    var added := NewRows(nextId, batch);
    var s := rows + added;
    forall x | x in TableIds(s) ensures x in TableIds(rows) + IdSet(batch) {
      var r :| r in s && Keyed(r) && BacteriaIdOf(r) == x;
      var i :| 0 <= i < |s| && s[i] == r;
      if i >= |rows| {
        assert r == added[i - |rows|];
      } else {
        assert r == rows[i];
      }
    }
  }

  lemma BatchKeysAppended(rows: seq<Row>, nextId: int, batch: seq<Record>)
    requires forall k :: 0 <= k < |batch| ==> Insertable(batch[k])
    requires forall k :: 0 <= k < |batch| ==> BacteriaIdOf(NewRows(nextId, batch)[k]) == IdOf(batch[k])
    ensures TableIds(rows) + IdSet(batch) <= TableIds(rows + NewRows(nextId, batch))
  {
    var added := NewRows(nextId, batch);
    var s := rows + added;
    forall x | x in TableIds(rows) ensures x in TableIds(s) {
      var r :| r in rows && Keyed(r) && BacteriaIdOf(r) == x;
      assert r in s;
    }
    forall x | x in IdSet(batch) ensures x in TableIds(s) {
      var k :| 0 <= k < |batch| && IdOf(batch[k]) == x;
      assert s[|rows| + k] == added[k];
    }
  }

  /** Writing a record's values over the row with its natural key keeps the table valid and the row found. */
  lemma UpdateSaved(rows: seq<Row>, nextId: int, k: nat, values: Record)
    requires ValidRows(rows, nextId) && Insertable(values)
    requires k < |rows| && BacteriaIdOf(rows[k]) == IdOf(values)
    ensures var s := rows[k := Row(rows[k].id, rows[k].cols + values)];
      && ValidRows(s, nextId)
      && IndexOfBacteriaId(s, IdOf(values)) == Some(k)
      && forall c :: c in values ==> s[k].cols[c] == values[c]
  {
    var row := Row(rows[k].id, rows[k].cols + values);
    ReplaceKeepsValid(rows, nextId, k, row);
    SavedRowFound(rows[k := row], k, IdOf(values));
  }

  /** A row appended under a natural key not yet stored is the one the look-up finds. */
  lemma InsertSaved(rows: seq<Row>, row: Row)
    requires forall i :: 0 <= i < |rows| ==> Keyed(rows[i])
    requires Keyed(row)
    requires forall i :: 0 <= i < |rows| ==> BacteriaIdOf(rows[i]) != BacteriaIdOf(row)
    ensures IndexOfBacteriaId(rows + [row], BacteriaIdOf(row)) == Some(|rows|)
  {
    AppendedKeys(rows, row);
    FirstWithKey(rows + [row], |rows|, BacteriaIdOf(row));
  }

  /** Appending one complete row with the next id and a key not yet stored keeps the table valid. */
  lemma AppendOneKeepsValid(rows: seq<Row>, nextId: int, row: Row)
    requires ValidRows(rows, nextId) && nextId >= 1
    requires WellFormedRow(row) && row.id == nextId
    requires forall i :: 0 <= i < |rows| ==> BacteriaIdOf(rows[i]) != BacteriaIdOf(row)
    ensures ValidRows(rows + [row], nextId + 1)
  {
    var s := rows + [row];
    AppendedKeys(rows, row);
    forall i, j | 0 <= i < j < |s| ensures s[i].id < s[j].id && BacteriaIdOf(s[i]) != BacteriaIdOf(s[j]) {
      assert s[i] == rows[i];
      if j < |rows| {
        assert s[j] == rows[j];
      }
    }
    forall i | 0 <= i < |s| ensures 1 <= s[i].id < nextId + 1 {
      if i < |rows| {
        assert s[i] == rows[i];
      }
    }
  }

  lemma AppendedKeys(rows: seq<Row>, row: Row)
    requires forall i :: 0 <= i < |rows| ==> Keyed(rows[i])
    requires Keyed(row)
    ensures var s := rows + [row];
      && (forall i :: 0 <= i < |s| ==> Keyed(s[i]))
      && s[|rows|] == row
      && forall i :: 0 <= i < |rows| ==> BacteriaIdOf(s[i]) == BacteriaIdOf(rows[i])
  {
    var s := rows + [row];
    forall i | 0 <= i < |s| ensures Keyed(s[i]) {
      if i < |rows| {
        assert s[i] == rows[i];
      }
    }
  }

  /** In a table with unique natural keys, a row with key `id` is the one the look-up finds. */
  lemma SavedRowFound(rows: seq<Row>, k: nat, id: string)
    requires forall i :: 0 <= i < |rows| ==> Keyed(rows[i])
    requires forall i, j :: 0 <= i < j < |rows| ==> BacteriaIdOf(rows[i]) != BacteriaIdOf(rows[j])
    requires k < |rows| && BacteriaIdOf(rows[k]) == id
    ensures IndexOfBacteriaId(rows, id) == Some(k)
  {
    FirstWithKey(rows, k, id);
  }

  /** The look-up finds the first row with the key. */
  lemma FirstWithKey(rows: seq<Row>, k: nat, id: string)
    requires forall i :: 0 <= i < |rows| ==> Keyed(rows[i])
    requires k < |rows| && BacteriaIdOf(rows[k]) == id
    requires forall i :: 0 <= i < k ==> BacteriaIdOf(rows[i]) != id
    ensures IndexOfBacteriaId(rows, id) == Some(k)
  {
    var found := IndexOfBacteriaId(rows, id);
    assert found.Some?;
    assert found.value == k;
  }

  /**
   * A `setattr` loop over the given fields of a stored row: each is written in turn, so the result is
   * the old columns overridden by the given ones.
   */
  method SetFields(cols: Record, updateData: Record) returns (updated: Record)
    ensures updated.Keys == cols.Keys + updateData.Keys
    ensures forall f :: f in updateData ==> updated[f] == updateData[f]
    ensures forall f :: f in cols && f !in updateData ==> updated[f] == cols[f]
  {
    updated := cols;
    var pending := updateData.Keys;
    while pending != {}
      invariant pending <= updateData.Keys
      invariant updated == cols + map f | f in updateData.Keys - pending :: updateData[f]
      decreases pending
    {
      var f :| f in pending;
      updated := updated[f := updateData[f]];
      pending := pending - {f};
    }
  }

  /** The table; `nextId` is the id sequence's next value, so ids are never reused. */
  class Table {
    var rows: seq<Row>
    var nextId: int

    ghost predicate Valid()
      reads this
    {
      ValidRows(rows, nextId) && nextId >= 1
    }

    constructor ()
      ensures Valid() && rows == []
    {
      rows := [];
      nextId := 1;
    }

    /** Insert one row with the next id, as the sequence assigns it. */
    method Insert(values: Record) returns (row: Row)
      requires Valid()
      requires Insertable(values)
      requires IndexOfBacteriaId(rows, IdOf(values)).None?
      modifies this
      ensures Valid()
      ensures row == NewRow(old(nextId), values)
      ensures rows == old(rows) + [row] && nextId == old(nextId) + 1
    {
      row := NewRow(nextId, values);
      AppendOneKeepsValid(rows, nextId, row);
      rows := rows + [row];
      nextId := nextId + 1;
    }

    /**
     * A multi-row insert of records whose natural keys are distinct from each other and from those
     * stored: the rows are appended with consecutive ids.
     */
    method InsertMany(batch: seq<Record>)
      requires Valid()
      requires forall k :: 0 <= k < |batch| ==> Insertable(batch[k])
      requires UniqueIds(batch) && IdSet(batch) !! TableIds(rows)
      modifies this
      ensures Valid()
      ensures rows == old(rows) + NewRows(old(nextId), batch) && nextId == old(nextId) + |batch|
      ensures TableIds(rows) == TableIds(old(rows)) + IdSet(batch)
    {
      AppendKeepsValid(rows, nextId, batch);
      AppendAddsKeys(rows, nextId, batch);
      rows := rows + NewRows(nextId, batch);
      nextId := nextId + |batch|;
    }
  }
}
