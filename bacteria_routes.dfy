/**
 * The `/bacteria` API routes over the table: create with a conflict check, look-ups by surrogate and by
 * natural key, the filtered, id-ordered and paginated list, update of the set fields, and delete.
 */
module BacteriaRoutes {
  import opened Wrappers
  import opened Values
  import opened Text
  import opened BacteriaStore
  import Response

  /**
   * An error answer: an `HTTPException`, or FastAPI's 422 answer naming every query parameter that breaks
   * its bounds.
   */
  datatype Failure =
    | HttpError(status: int, detail: string)
    | RequestValidationError(params: seq<string>)

  /** The query parameters of `GET /bacteria`; there is no phylum parameter. */
  datatype ListQuery = ListQuery(
    page: int,
    pageSize: int,
    search: Option<string>,
    isPathogen: Option<bool>,
    gramStain: Option<string>)

  /** The parameters that break `page >= 1`, `1 <= page_size <= 100` or `len(search) >= 2`, in declaration order. */
  function QueryViolations(q: ListQuery): (v: seq<string>)
    ensures "page" in v <==> q.page < 1
    ensures "page_size" in v <==> q.pageSize < 1 || q.pageSize > 100
    ensures "search" in v <==> q.search.Some? && |q.search.value| < 2
    ensures forall k :: 0 <= k < |v| ==> v[k] == "page" || v[k] == "page_size" || v[k] == "search"
    ensures v == [] <==> q.page >= 1 && 1 <= q.pageSize <= 100 && (q.search.Some? ==> |q.search.value| >= 2)
  {
    (if q.page < 1 then ["page"] else [])
    + (if q.pageSize < 1 || q.pageSize > 100 then ["page_size"] else [])
    + (if q.search.Some? && |q.search.value| < 2 then ["search"] else [])
  }

  /** `column ILIKE '%term%'`: a NULL column never matches. */
  predicate ColumnContains(row: Row, column: string, term: string) {
    var v := Get(row.cols, column);
    v.Str? && Contains(Lower(v.s), Lower(term))
  }

  /** The conjunction of the active filters of `list_bacteria`. */
  predicate Matches(row: Row, q: ListQuery) {
    && (q.search.Some? && q.search.value != "" ==>
          ColumnContains(row, "name", q.search.value) || ColumnContains(row, "species", q.search.value)
          || ColumnContains(row, "genus", q.search.value) || ColumnContains(row, "bacteria_id", q.search.value))
    && (q.isPathogen.Some? ==> Get(row.cols, "is_pathogen") == Bool(q.isPathogen.value))
    && (q.gramStain.Some? && q.gramStain.value != "" ==>
          var g := Get(row.cols, "gram_stain");
          g.Str? && Lower(g.s) == Lower(q.gramStain.value))
  }

  /** The rows that match, in table order. */
  function FilterRows(rows: seq<Row>, q: ListQuery): (m: seq<Row>)
    ensures |m| <= |rows|
    ensures forall r :: r in m ==> r in rows && Matches(r, q)
  {
    if rows == [] then []
    else (if Matches(rows[0], q) then [rows[0]] else []) + FilterRows(rows[1..], q)
  }

  /** Every matching row of the table is among the filtered rows. */
  lemma {:induction false} FilterRowsComplete(rows: seq<Row>, q: ListQuery, r: Row)
    requires r in rows && Matches(r, q)
    ensures r in FilterRows(rows, q)
  {
    if rows[0] != r {
      FilterRowsComplete(rows[1..], q, r);
    }
  }

  /** Filtering keeps the ascending id order of the table. */
  lemma {:induction false} FilterRowsOrdered(rows: seq<Row>, q: ListQuery)
    requires IdsAscending(rows)
    ensures IdsAscending(FilterRows(rows, q))
  {
    if rows != [] {
      FilterRowsOrdered(rows[1..], q);
      var tail := FilterRows(rows[1..], q);
      if Matches(rows[0], q) {
        forall x | x in tail ensures rows[0].id < x.id {
          var i :| 0 <= i < |rows[1..]| && rows[1..][i] == x;
          assert x == rows[i + 1];
        }
        PrependOrdered(rows[0], tail);
        assert FilterRows(rows, q) == [rows[0]] + tail;
      } else {
        assert FilterRows(rows, q) == tail;
      }
    }
  }

  lemma PrependOrdered(r: Row, tail: seq<Row>)
    requires IdsAscending(tail)
    requires forall x :: x in tail ==> r.id < x.id
    ensures IdsAscending([r] + tail)
  {
    var m := [r] + tail;
    forall i, j | 0 <= i < j < |m| ensures m[i].id < m[j].id {
      assert m[j] == tail[j - 1];
      if i > 0 { assert m[i] == tail[i - 1]; }
    }
  }

  /** The filtered rows depend on the filters only, not on the page asked for. */
  lemma {:induction false} FilterSameFilters(rows: seq<Row>, q: ListQuery, q2: ListQuery)
    requires q2.search == q.search && q2.isPathogen == q.isPathogen && q2.gramStain == q.gramStain
    ensures FilterRows(rows, q) == FilterRows(rows, q2)
  {
    if rows != [] {
      FilterSameFilters(rows[1..], q, q2);
      assert Matches(rows[0], q) == Matches(rows[0], q2);
    }
  }

  /** `OFFSET offset LIMIT limit` on a sequence of rows. */
  function OffsetLimit(s: seq<Row>, offset: nat, limit: nat): (r: seq<Row>)
    ensures |r| <= limit
    ensures offset <= |s| ==> r == s[offset..if offset + limit <= |s| then offset + limit else |s|]
    ensures offset > |s| ==> r == []
  {
    var lo := if offset <= |s| then offset else |s|;
    var hi := if offset + limit <= |s| then offset + limit else |s|;
    s[lo..hi]
  }

  /** A window keeps the elements and the order of what it is cut from, and finds row `offset + k` at `k`. */
  lemma OffsetLimitWindow(s: seq<Row>, offset: nat, limit: nat)
    ensures var r := OffsetLimit(s, offset, limit);
      && (forall k :: 0 <= k < |r| ==> offset + k < |s| && r[k] == s[offset + k])
      && (offset + limit <= |s| ==> |r| == limit)
  {
  }

  /**
   * `list_bacteria`: validate the parameters, keep the rows matching every active filter in id order,
   * count them all, and answer the `page`-th slice of `page_size` rows in a paginated envelope. Whether
   * the count query and the page query succeed are the parameters `countOk` and `fetchOk`.
   */
  function ListBacteria(rows: seq<Row>, q: ListQuery, countOk: bool, fetchOk: bool)
    : (r: Result<Response.Envelope<seq<Row>>, Failure>)
    ensures r.Ok? <==> QueryViolations(q) == [] && countOk && fetchOk
    ensures QueryViolations(q) != [] ==> r == Err(RequestValidationError(QueryViolations(q)))
    ensures QueryViolations(q) == [] && !countOk ==> r == Err(HttpError(500, "Error processing request during count"))
    ensures QueryViolations(q) == [] && countOk && !fetchOk ==>
      r == Err(HttpError(500, "Error processing request during fetch"))
    ensures r.Ok? ==>
      && r.value.success && r.value.message == "Bacteria retrieved successfully"
      && r.value.data == Some(OffsetLimit(FilterRows(rows, q), (q.page - 1) * q.pageSize, q.pageSize))
      && r.value.meta.Some?
      && r.value.meta.value.totalItems == |FilterRows(rows, q)|
      && r.value.meta.value.currentPage == q.page && r.value.meta.value.pageSize == q.pageSize
      && r.value.meta.value.totalPages == Response.TotalPages(|FilterRows(rows, q)|, q.pageSize)
      && r.value.meta.value.hasPrevious == (q.page > 1)
      && r.value.meta.value.hasNext == (q.page < r.value.meta.value.totalPages)
  {
    var violations := QueryViolations(q);
    if violations != [] then Err(RequestValidationError(violations))
    else if !countOk then Err(HttpError(500, "Error processing request during count"))
    else if !fetchOk then Err(HttpError(500, "Error processing request during fetch"))
    else
      var matching := FilterRows(rows, q);
      var totalItems := |matching|;
      var offset := (q.page - 1) * q.pageSize;
      var page := OffsetLimit(matching, offset, q.pageSize);
      Ok(Response.PaginatedResponse(page, totalItems, q.page, q.pageSize, "Bacteria retrieved successfully"))
  }

  /**
   * A page of the list holds at most `page_size` rows, each matching every filter, in strictly ascending
   * id order, and `total_items` counts the matching rows whatever page is asked for.
   */
  lemma ListPageIsOrderedMatches(rows: seq<Row>, q: ListQuery, q2: ListQuery)
    requires IdsAscending(rows)
    requires QueryViolations(q) == [] && QueryViolations(q2) == []
    requires q2.search == q.search && q2.isPathogen == q.isPathogen && q2.gramStain == q.gramStain
    ensures var items := ListBacteria(rows, q, true, true).value.data.value;
      && |items| <= q.pageSize
      && (forall k :: 0 <= k < |items| ==> items[k] in rows && Matches(items[k], q))
      && IdsAscending(items)
    ensures ListBacteria(rows, q, true, true).value.meta.value.totalItems == ListBacteria(rows, q2, true, true).value.meta.value.totalItems
  {
    var m := FilterRows(rows, q);
    FilterRowsOrdered(rows, q);
    FilterSameFilters(rows, q, q2);
    var offset: nat := (q.page - 1) * q.pageSize;
    var items := OffsetLimit(m, offset, q.pageSize);
    assert ListBacteria(rows, q, true, true).value.data.value == items;
    OffsetLimitWindow(m, offset, q.pageSize);
    forall k | 0 <= k < |items| ensures items[k] in m {
      assert items[k] == m[offset + k];
    }
  }

  /**
   * Paging walks the matching rows without gaps or overlaps: the `k`-th matching row is row `k % page_size`
   * of page `k / page_size + 1`, and that page is within `total_pages`.
   */
  lemma RowOnItsPage(rows: seq<Row>, q: ListQuery, k: nat)
    requires QueryViolations(q) == []
    requires k < |FilterRows(rows, q)|
    ensures var qk := q.(page := k / q.pageSize + 1);
      && QueryViolations(qk) == []
      && var env := ListBacteria(rows, qk, true, true).value;
      && k % q.pageSize < |env.data.value|
      && env.data.value[k % q.pageSize] == FilterRows(rows, q)[k]
      && qk.page <= env.meta.value.totalPages
  {
    var ps := q.pageSize;
    var m := FilterRows(rows, q);
    PageArithmetic(k, ps, |m|);
    var qk := q.(page := k / ps + 1);
    assert QueryViolations(qk) == [];
    FilterSameFilters(rows, q, qk);
    WindowIndex(m, ps, k);
  }

  /** The window of page `k / size + 1` holds the `k`-th row at position `k % size`. */
  lemma WindowIndex(m: seq<Row>, size: int, k: nat)
    requires size >= 1 && k < |m|
    ensures var w := OffsetLimit(m, (k / size) * size, size);
      k % size < |w| && w[k % size] == m[k]
  {
    PageArithmetic(k, size, |m|);
    OffsetLimitWindow(m, (k / size) * size, size);
  }

  /** Position `k` lies on page `k / size + 1`, at offset `k % size`, and that page exists. */
  lemma PageArithmetic(k: nat, size: int, total: nat)
    requires size >= 1 && k < total
    ensures k / size >= 0 && (k / size) * size + k % size == k && 0 <= k % size < size
    ensures k / size + 1 <= Response.TotalPages(total, size)
  {
    var tp := Response.TotalPages(total, size);
    assert total <= tp * size;
    assert (k / size) * size <= k;
    if k / size + 1 > tp {
      Response.MulMonotone(tp, k / size, size);
    }
  }

  /** `create_bacteria_entry`: 409 when the natural key exists; otherwise insert the set fields. */
  method CreateBacteriaEntry(t: Table, bacteriaIn: Record, commitOk: bool, dbError: string)
    returns (r: Result<Row, Failure>)
    requires t.Valid()
    requires Insertable(bacteriaIn)
    modifies t
    ensures t.Valid()
    ensures var bid := bacteriaIn["bacteria_id"].s;
      IndexOfBacteriaId(old(t.rows), bid).Some? ==>
        r == Err(HttpError(409, "Bacteria with ID " + bid + " already exists."))
    ensures IndexOfBacteriaId(old(t.rows), bacteriaIn["bacteria_id"].s).None? && !commitOk ==>
      r == Err(HttpError(500, "Database error: " + dbError))
    ensures r.Err? ==> t.rows == old(t.rows) && t.nextId == old(t.nextId)
    ensures r.Ok? <==> IndexOfBacteriaId(old(t.rows), bacteriaIn["bacteria_id"].s).None? && commitOk
    ensures r.Ok? ==> r.value == NewRow(old(t.nextId), bacteriaIn) && t.rows == old(t.rows) + [r.value]
    ensures r.Ok? ==> t.nextId == old(t.nextId) + 1
  {
    var bid := bacteriaIn["bacteria_id"].s;
    if IndexOfBacteriaId(t.rows, bid).Some? {
      return Err(HttpError(409, "Bacteria with ID " + bid + " already exists."));
    }
    if !commitOk {
      return Err(HttpError(500, "Database error: " + dbError));
    }
    var row := t.Insert(bacteriaIn);
    r := Ok(row);
  }

  /** `get_bacteria_by_db_id`: the row with that surrogate id, or 404. */
  function GetBacteriaByDbId(rows: seq<Row>, id: int): (r: Result<Row, Failure>)
    ensures r.Ok? <==> exists i :: 0 <= i < |rows| && rows[i].id == id
    ensures r.Ok? ==> r.value in rows && r.value.id == id
    ensures r.Err? ==> r.error == HttpError(404, "Bacteria (by DB ID) not found")
  {
    match IndexOfId(rows, id)
    case Some(k) => Ok(rows[k])
    case None => Err(HttpError(404, "Bacteria (by DB ID) not found"))
  }

  /** `get_bacteria_by_unique_id`: the row with that natural key, or 404. */
  function GetBacteriaByUniqueId(rows: seq<Row>, bacteriaId: string): (r: Result<Row, Failure>)
    requires forall i :: 0 <= i < |rows| ==> Keyed(rows[i])
    ensures r.Ok? <==> exists i :: 0 <= i < |rows| && BacteriaIdOf(rows[i]) == bacteriaId
    ensures r.Ok? ==> r.value in rows && Keyed(r.value) && BacteriaIdOf(r.value) == bacteriaId
    ensures r.Err? ==> r.error == HttpError(404, "Bacteria (by unique bacteria_id) not found")
  {
    match IndexOfBacteriaId(rows, bacteriaId)
    case Some(k) => Ok(rows[k])
    case None => Err(HttpError(404, "Bacteria (by unique bacteria_id) not found"))
  }

  /**
   * `update_bacteria_entry`: 404 for an unknown id, 400 when no field is set; otherwise each set field
   * is written onto the row (`setattr` in a loop) and every other column and row stays as it was.
   */
  method UpdateBacteriaEntry(t: Table, id: int, updateData: Record, commitOk: bool, dbError: string)
    returns (r: Result<Row, Failure>)
    requires t.Valid()
    requires updateData.Keys <= UpdatableColumns
    modifies t
    ensures t.Valid() && |t.rows| == |old(t.rows)| && t.nextId == old(t.nextId)
    ensures IndexOfId(old(t.rows), id).None? ==> r == Err(HttpError(404, "Bacteria not found"))
    ensures IndexOfId(old(t.rows), id).Some? && updateData == map[] ==>
      r == Err(HttpError(400, "No update data provided"))
    ensures IndexOfId(old(t.rows), id).Some? && updateData != map[] && !commitOk ==>
      r == Err(HttpError(500, "Database error on update: " + dbError))
    ensures r.Err? ==> t.rows == old(t.rows)
    ensures r.Ok? <==> IndexOfId(old(t.rows), id).Some? && updateData != map[] && commitOk
    ensures r.Ok? ==> r.value.id == id
    ensures r.Ok? ==> forall i :: 0 <= i < |t.rows| ==>
      t.rows[i] == if old(t.rows[i]).id == id then Row(id, old(t.rows[i]).cols + updateData) else old(t.rows[i])
  {
    var found := IndexOfId(t.rows, id);
    if found.None? {
      return Err(HttpError(404, "Bacteria not found"));
    }
    if updateData == map[] {
      return Err(HttpError(400, "No update data provided"));
    }
    var k := found.value;
    var cols := SetFields(t.rows[k].cols, updateData);
    if !commitOk {
      return Err(HttpError(500, "Database error on update: " + dbError));
    }
    assert cols == t.rows[k].cols + updateData;
    UpdateOneRow(t.rows, t.nextId, k, updateData);
    var row := Row(id, cols);
    t.rows := t.rows[k := row];
    r := Ok(row);
  }

  /** Writing updatable fields onto the row at `k` keeps the table valid and touches no other row. */
  lemma UpdateOneRow(rows: seq<Row>, nextId: int, k: nat, updateData: Record)
    requires ValidRows(rows, nextId) && k < |rows|
    requires updateData.Keys <= UpdatableColumns
    ensures var s := rows[k := Row(rows[k].id, rows[k].cols + updateData)];
      && ValidRows(s, nextId)
      && forall i :: 0 <= i < |s| ==>
        s[i] == if rows[i].id == rows[k].id then Row(rows[k].id, rows[i].cols + updateData) else rows[i]
  {
    var row := Row(rows[k].id, rows[k].cols + updateData);
    assert BacteriaIdOf(row) == BacteriaIdOf(rows[k]);
    ReplaceKeepsValid(rows, nextId, k, row);
    forall i | 0 <= i < |rows| && i != k ensures rows[i].id != rows[k].id {
    }
  }

  /** `delete_bacteria_entry`: 404 for an unknown id; otherwise exactly that row is removed. */
  method DeleteBacteriaEntry(t: Table, id: int, commitOk: bool, dbError: string) returns (r: Result<(), Failure>)
    requires t.Valid()
    modifies t
    ensures t.Valid() && t.nextId == old(t.nextId)
    ensures IndexOfId(old(t.rows), id).None? ==> r == Err(HttpError(404, "Bacteria not found"))
    ensures IndexOfId(old(t.rows), id).Some? && !commitOk ==>
      r == Err(HttpError(500, "Database error on delete: " + dbError))
    ensures r.Err? ==> t.rows == old(t.rows)
    ensures r.Ok? <==> IndexOfId(old(t.rows), id).Some? && commitOk
    ensures r.Ok? ==> var k := IndexOfId(old(t.rows), id).value; t.rows == Without(old(t.rows), k)
    ensures r.Ok? ==> forall x :: x in t.rows <==> x in old(t.rows) && x.id != id
  {
    var found := IndexOfId(t.rows, id);
    if found.None? {
      return Err(HttpError(404, "Bacteria not found"));
    }
    if !commitOk {
      return Err(HttpError(500, "Database error on delete: " + dbError));
    }
    var k := found.value;
    RemoveKeepsValid(t.rows, t.nextId, k);
    RemoveExactlyThatRow(t.rows, t.nextId, k);
    t.rows := Without(t.rows, k);
    r := Ok(());
  }
}
